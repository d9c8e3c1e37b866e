/**
  The write phase of the transaction route as the code performs it: the
  balance UPDATE and the ledger INSERT are two separate commits, and each is
  followed by a check of `query_db`'s return value that cannot fail, since
  `query_db` returns None both after a commit and after a caught driver
  error. Set beside the atomic `Engine.Bank.PerformTransaction`.
 */
module AsWritten {
  import opened Types
  import opened Ledger
  import opened Engine

  /** The rows the write phase touches. */
  datatype Store = Store(balances: map<int, real>, lastAccess: map<int, Date>, ledger: seq<Entry>)

  /** The value `query_db` returns for a write (`commit=True`): None when the
      statement committed, and None again when the driver raised and the
      error was only flashed. */
  function CommitReturn(committed: bool): Option<string>
  {
    None
  }

  /** The transaction route after validation, with the outcome of each of
      the two writes given by `updateOk` and `insertOk`. */
  function SubmitAsWritten(st: Store, owned: seq<int>, req: Request, today: Date, now: Time,
                           updateOk: bool, insertOk: bool): (out: (Result<real>, Store))
    requires forall a :: a in owned ==> a in st.balances
    ensures Validate(req, owned, st.balances).Err? ==> out == (Err(Validate(req, owned, st.balances).error), st)
    ensures Validate(req, owned, st.balances).Ok? ==>
      var p := Validate(req, owned, st.balances).value;
      && out.0 == Ok(p.newBalance)
      && out.1.balances == (if updateOk then st.balances[p.account := p.newBalance] else st.balances)
      && out.1.lastAccess == (if updateOk then st.lastAccess[p.account := today] else st.lastAccess)
      && out.1.ledger == (if insertOk then st.ledger + [Record(p, today, now)] else st.ledger)
  {
    match Validate(req, owned, st.balances)
    case Err(e) => (Err(e), st)
    case Ok(p) =>
      var updated :=
        if updateOk then st.(balances := st.balances[p.account := p.newBalance],
                             lastAccess := st.lastAccess[p.account := today])
        else st;
      if CommitReturn(updateOk).Some? then (Err(StoreUnavailable), updated)
      else
        var inserted :=
          if insertOk then updated.(ledger := updated.ledger + [Record(p, today, now)]) else updated;
        if CommitReturn(insertOk).Some? then (Err(StoreUnavailable), inserted)
        else (Ok(p.newBalance), inserted)
  }

  /** A corollary of `SubmitAsWritten`'s contract, stated on its own: every
      request that passes validation is reported as a success, whatever
      driver error either write raised. */
  lemma AsWrittenAlwaysReportsSuccess(st: Store, owned: seq<int>, req: Request, today: Date, now: Time,
                                      updateOk: bool, insertOk: bool)
    requires forall a :: a in owned ==> a in st.balances
    requires Validate(req, owned, st.balances).Ok?
    ensures SubmitAsWritten(st, owned, req, today, now, updateOk, insertOk).0
      == Ok(Validate(req, owned, st.balances).value.newBalance)
  {
  }

  /** When exactly one of the two writes fails, an Account table that agreed
      with the ledger no longer does: a balance moved with no row for it, or
      a row with no balance movement. */
  lemma AsWrittenDiverges(opening: map<int, real>, st: Store, owned: seq<int>, req: Request,
                          today: Date, now: Time, updateOk: bool, insertOk: bool)
    requires forall a :: a in owned ==> a in st.balances
    requires Consistent(opening, st.balances, st.ledger)
    requires Validate(req, owned, st.balances).Ok?
    requires updateOk != insertOk
    ensures var after := SubmitAsWritten(st, owned, req, today, now, updateOk, insertOk).1;
      !Consistent(opening, after.balances, after.ledger)
  {
    var p := Validate(req, owned, st.balances).value;
    var after := SubmitAsWritten(st, owned, req, today, now, updateOk, insertOk).1;
    var a := p.account;
    assert Signed(p.kind, p.amount) != 0.0;
    if updateOk {
      assert after.ledger == st.ledger;
      assert after.balances[a] == opening[a] + Net(st.ledger, a) + Signed(p.kind, p.amount);
    } else {
      assert after.balances == st.balances;
      NetAppend(st.ledger, Record(p, today, now), a);
      assert Net(after.ledger, a) == Net(st.ledger, a) + Signed(p.kind, p.amount);
    }
  }

  /** A failed UPDATE on a deposit of 50.00 to an account holding 100.00:
      the caller is told the deposit succeeded, the ledger gains the row and
      the balance stays at 100.00. */
  lemma UpdateErrorStillRecordsDeposit()
    ensures var out := SubmitAsWritten(Store(map[1001 := 100.00], map[1001 := "2024-01-01"], []), [1001],
                                       Request(Some(1001), "Deposit", Some(50.00)), "2024-01-02", "10:00",
                                       false, true);
      out.0 == Ok(150.00) && out.1.balances[1001] == 100.00 && |out.1.ledger| == 1
  {
  }

  /** A failed INSERT after a committed UPDATE: the balance reads 150.00 and
      no ledger row accounts for the 50.00. */
  lemma InsertErrorLeavesUnrecordedBalance()
    ensures var out := SubmitAsWritten(Store(map[1001 := 100.00], map[1001 := "2024-01-01"], []), [1001],
                                       Request(Some(1001), "Deposit", Some(50.00)), "2024-01-02", "10:00",
                                       true, false);
      out.0 == Ok(150.00) && out.1.balances[1001] == 150.00 && out.1.ledger == []
  {
  }

  /** When both writes succeed the two-step code does what the atomic engine
      does, and the Account table still agrees with the ledger. */
  lemma AsWrittenAgreesWhenStoreHealthy(opening: map<int, real>, st: Store, owned: seq<int>, req: Request,
                                        today: Date, now: Time)
    requires forall a :: a in owned ==> a in st.balances
    requires Consistent(opening, st.balances, st.ledger)
    ensures var out := SubmitAsWritten(st, owned, req, today, now, true, true);
      out.0 == Outcome(Validate(req, owned, st.balances), true) &&
      Consistent(opening, out.1.balances, out.1.ledger)
  {
    match Validate(req, owned, st.balances)
    case Err(_) =>
    case Ok(p) =>
      var e := Record(p, today, now);
      ParseKindName(p.kind);
      PostPreservesConsistency(opening, st.balances, st.ledger, e);
  }
}

# Bank back office: the customer transaction core, in Dafny

This project models the part of the branch-banking web application that
moves money: the deposit/withdrawal route of a logged-in customer
(`perform_transaction` in `app.py`), the session guards that decide whether a
route runs at all (`login_required`, `employee_required`,
`customer_required`), and the role dispatch of the root page (`home`).

- `Types.dfy`: `Option`, and the store's date and time as opaque strings.
- `Access.dfy` (module `Access`): the session, the three guards as pure
  functions, a decorated view (`Guarded`) and the root page's dispatch.
- `Ledger.dfy` (module `Ledger`): the Transaction table's rows, the
  transaction-type dispatch, the fixed charges, the net movement of the
  ledger per account, and `Consistent`: every balance equals its opening
  balance plus the signed amounts of its ledger rows (charges excluded).
- `Engine.dfy` (module `Engine`): the engine's checks as a function
  (`Validate`), the search over the caller's accounts as a loop
  (`FindAccount`), and a `Bank` class. The class holds the Account table's
  balances and last-access dates, the Customer_Account relation and the
  ledger. Its method `PerformTransaction` makes the checks in the code's
  order and then commits the balance, the date and the ledger row as one
  step. It keeps `Valid()`, which is `Consistent`. `CustomerTransaction` puts
  the route's `customer_required` guard and customer lookup in front of the
  engine.
- `AsWritten.dfy` (module `AsWritten`): the write phase as the code performs
  it, with two separate commits whose failure checks never fire. It backs
  the two findings below.

Amounts and balances are `real`: decimal values such as 0.50 and 0.001 are
exact. `float(amount)` and `int(account_number)` appear as `Option` values,
where `None` stands for the conversion raising `ValueError`. The route uses
one `transaction_type` string for both the dispatch and the charge. The model
keeps it as a string in the request and as a `Kind` in the ledger row.

## Model

| member | source | states |
|---|---|---|
| `Access.LoginRequired` | app.py:56-63 | the wrapped view runs exactly when `username` is in the session; otherwise the refusal is "not authenticated" |
| `Access.RoleRequired` | app.py:65-83 | a role guard stacked on the login guard passes exactly when a username is set and `usertype` equals the role; no username gives "not authenticated", a username with another or no `usertype` gives "forbidden" |
| `Access.EmployeeRequired` | app.py:65-73 | passes exactly for a logged-in session whose `usertype` is "Employee"; without a username the refusal is "not authenticated" |
| `Access.CustomerRequired` | app.py:75-83 | passes exactly for a logged-in session whose `usertype` is "Customer"; without a username the refusal is "not authenticated" |
| `Access.Guarded` | app.py:58-62 | a decorated view answers with the view's own response exactly when the gate passes, and with a redirect carrying the gate's reason otherwise |
| `Access.GuardsSeparateRoles` | app.py:56-83 | without a username neither role's views run; no session runs both an employee view and a customer view; a customer session runs customer views and is refused employee views as forbidden |
| `Access.Home` | app.py:114-121 | the root page sends a session to the employee dashboard exactly when `employee_required` would pass, to the customer dashboard exactly when `customer_required` would pass, fails with a KeyError exactly when a username has no `usertype`, and otherwise sends it to login |
| `Ledger.ParseKind` | app.py:849-858 | exactly "Deposit" and "Withdrawal" are accepted, each as its own kind, and the kind's stored name is the submitted string |
| `Ledger.ChargeFor` | app.py:868 | the recorded charge is positive, 0.50 exactly for "Deposit" and 1.00 for every other type |
| `Ledger.NetAppend` | app.py:869-876 | appending one row changes an account's net ledger movement by that row's signed amount if the row is the account's, and by nothing otherwise |
| `Ledger.PostPreservesConsistency` | app.py:861-876 | writing a balance moved by one new row's signed amount together with that row keeps every balance equal to its opening value plus its net ledger movement |
| `Engine.Owned` | app.py:819-826 | the caller's accounts are exactly the accounts of the Account table that have a Customer_Account row for the caller's SSN |
| `Engine.Validate` | app.py:833-858 | an accepted request names one of the caller's accounts, has a positive amount and an accepted type; its new balance is the old balance plus the deposit or minus the withdrawal; a withdrawal never leaves a negative balance |
| `Engine.AmountCheckedFirst` | app.py:833-841 | a non-numeric amount and an amount of 0 or less are refused with their own errors whatever the account and the type |
| `Engine.OwnershipCheckedSecond` | app.py:843-847 | with a valid amount, a caller without accounts and an account not among the caller's are refused as not found whatever the type; a non-numeric account field with at least one owned account is the uncaught conversion error |
| `Engine.TypeCheckedLast` | app.py:849-858 | once amount and account pass, the request is refused as unsupported exactly when the type is neither "Deposit" nor "Withdrawal" |
| `Engine.WithdrawalBound` | app.py:849-853 | a withdrawal is refused for insufficient funds exactly when it exceeds the balance, goes through exactly when it does not, and one equal to the balance leaves exactly 0 |
| `Engine.Accepted` | app.py:849-858 | a request goes through exactly when the amount is positive, the account is the caller's and it is a deposit or a withdrawal within the balance; the new balance is old + amount for a deposit and old − amount for a withdrawal |
| `Engine.FindAccount` | app.py:844-847 | the search finds the submitted account exactly when it is among the caller's accounts, and the account field's conversion error arises exactly when the field is not a number and there is at least one account to compare with |
| `Engine.Bank.OwnedAccounts` | app.py:819-826 | every account the accounts query returns has a row in the Account table |
| `Engine.Bank.PerformTransaction` | app.py:828-879 | the reply is the first failing check in the code's order, or the store's refusal, or the new balance; every refusal leaves balances, dates and ledger untouched; a success changes only the chosen account's balance and last-access date and appends exactly one row (requested amount, type, account, date, time, fixed charge) after the untouched old rows; each call keeps every balance equal to its opening balance plus its net ledger movement |
| `Engine.CustomerTransaction` | app.py:806-879 | a session refused by `customer_required`, or a user with no customer record, is turned away with nothing changed; otherwise the request always reaches the engine, and the reply and the new balances, dates and ledger are exactly those of the engine for that customer's accounts; the Customer_Account rows never change |
| `AsWritten.SubmitAsWritten` | app.py:860-879 | as written, a refused request leaves the store alone; a validated request is reported successful, the UPDATE sets the new balance and date exactly when it commits, and the INSERT appends the request's row exactly when it commits |
| `AsWritten.AsWrittenAlwaysReportsSuccess` | app.py:862-879 | a corollary of `SubmitAsWritten`: as written, every request that passes validation is reported successful, whatever driver error either write raised |
| `AsWritten.AsWrittenDiverges` | app.py:861-876 | as written, when exactly one of the two writes fails, balances that agreed with the ledger no longer do |
| `AsWritten.UpdateErrorStillRecordsDeposit` | app.py:862-865 | once the accounts query returns the caller's rows, a deposit of 50.00 to an account holding 100.00 whose UPDATE fails is reported successful, leaves the balance at 100.00 and still records the ledger row |
| `AsWritten.InsertErrorLeavesUnrecordedBalance` | app.py:873-876 | once the accounts query returns the caller's rows, the same deposit whose INSERT fails is reported successful and leaves the balance at 150.00 with no ledger row |
| `AsWritten.AsWrittenAgreesWhenStoreHealthy` | app.py:860-879 | when both writes commit, the two-step code replies as the atomic engine does and balances still agree with the ledger |

## Findings

| source | as written | input that shows it | evidently intended | confidence | as-written member | corrected member |
|---|---|---|---|---|---|---|
| app.py:862-865 | the route checks `update_result is not None` (and `transaction_result is not None` at 873-876), but `query_db` returns None after a caught driver error as well as after a commit (app.py:37-38, app.py:44-47), so neither check can fire | once the accounts query returns the caller's rows, a Deposit of 50.00 to account 1001 holding 100.00 whose UPDATE raises a driver error: "Deposit successful!" is flashed, the ledger gains the row and the balance stays 100.00 | a failed write is reported as an error and nothing is recorded | high; not executed | `AsWritten.UpdateErrorStillRecordsDeposit` | `Engine.Bank.PerformTransaction` |
| app.py:861-876 | the balance UPDATE and the ledger INSERT are two separate commits with no rollback | once the accounts query returns the caller's rows, the same deposit whose INSERT fails after the UPDATE committed: balance 150.00 with no ledger row for the 50.00 | the balance and its ledger row are written together or not at all | high; not executed | `AsWritten.AsWrittenDiverges` | `Engine.Bank.PerformTransaction` |

The corrected behaviour is the one `Engine.Bank.PerformTransaction` models.
Every refusal, including the store refusing the commit, leaves the balances,
dates and ledger unchanged. On success the ledger grows by exactly one row.
The method keeps `Valid()`: balances equal opening balance plus net ledger
movement.

## Left out

- Flask routing, templates, redirects and the text of flash messages. A refusal is modelled as an error value. The two amount messages stay two errors.
- The GET branch of the transaction route (it only renders the form) and the history views (their ordering and joins happen in SQL).
- `get_db_connection`, `query_db` and all SQL text. The store is the `Bank` object's maps and sequence. Only `query_db`'s return value for writes is modelled (`AsWritten.CommitReturn`), because the findings depend on it.
- The CRUD screens for branches, employees, customers, accounts and loans, and the search filters. They only pass form fields to SQL.
- The balance/ledger agreement (`Consistent`, kept by `Engine.Bank.PerformTransaction`) holds only while the engine is the only writer of balances. The account screens break it: `add_account` inserts an account with any balance (app.py:589-593), `edit_account` overwrites `Balance` and `LastAccessDate` with no ledger row (app.py:612-617), and `delete_account` removes an account (app.py:635).
- The account number written: the ownership check compares `int(account_number)` (app.py:844), but the UPDATE and the INSERT bind the submitted string (app.py:862, app.py:873). The model writes the parsed number. A string that `int()` reads differently from the store's string-to-number conversion (such as `1_001`) may therefore write to another account, or to none, and the model does not capture this.
- Login credential lookup, logout and the secret key: authentication I/O. The session is a value holding `username` and `usertype`. The Users lookup of the customer's SSN is a parameter of `CustomerTransaction` (`None` when no row is found).
- `float()` and `int()` parsing: their results are `Option` values. Which strings Python accepts (exponents, "inf", "nan", surrounding whitespace) is not modelled, and neither is IEEE rounding. Amounts are exact reals.
- The column types of the Account table are not part of this model. Balance arithmetic is exact and never raises. If `Balance` is a DECIMAL column, the driver returns a `Decimal`, and `account['Balance'] - amount` or `+ amount` with the float `amount` (app.py:853, app.py:855) would raise TypeError; the model does not capture this.
- `CURDATE()`/`CURTIME()`: opaque parameters. The generated TransactionID: a ledger row is identified by its position.
- The accounts query as written (app.py:820-825) selects an unqualified `AccountNumber` over `Account JOIN Customer_Account`, a column both tables have, which MySQL rejects as ambiguous. `query_db` then returns None (app.py:44-47) and the loop at app.py:844 raises TypeError, so as written no POST reaches the write phase. `Engine.Owned` models the join the query evidently intends (the other account queries, app.py:556-560 and app.py:791-795, qualify the column); the ambiguity itself is not modelled.
- A Users lookup failing with a driver error (app.py:812-816): `query_db` returns None and the route answers "Customer not found", which `CustomerTransaction` models through `ssn` being `None`.
- Concurrency between simultaneous requests. One request is handled at a time, and the engine's commit is a single step whose success is the parameter `storeOk`.

# In-memory banking ledger, modelled in Dafny

The system is a small HTTP service over one in-memory list of customer
records. Each record is keyed by a tax ID (`cpf`) and holds an append-only
statement of credit and debit operations. Clients create an account, deposit,
withdraw (refused when the balance is below the amount), rename the account,
delete it, and query the account, its statement, the statement of one
calendar day and the balance. Every route except account creation first
resolves the `cpf` header to a record, and answers "Customer not found!"
when no record matches.

The model has five modules:

- `Wrappers`: `Option`, `Result` and `Outcome`.
- `Errors`: the three errors and their exact messages.
- `Statement`: the operations. It holds the balance as the source's
  left-to-right `reduce` fold, the by-day filter, and the deposit and
  withdrawal steps. It also has `Replay`, which runs a sequence of
  deposit/withdraw requests against a fresh account.
- `Store`: customer records. It holds the `find` and `some` scans, the
  account resolver, the "tax IDs are distinct" invariant, and `splice`.
- `Bank`: class `Ledger`. Its field `customers` is the shared list, and it
  has one method per route handler. Each method states the whole new list in
  terms of the old one and keeps the invariant.

The source updates customer objects in place (`customer.statement.push`,
`customer.name = name`). The model stores each record as a value in
`customers` and replaces element `i`, where `i` is the resolved position.
This has the same effect because every record is reachable only through the
list.

The model follows the code as written, including two behaviours that look
unintended:

- Deletion removes the first record, not the resolved one. This is reported
  under Findings.
- Amounts are not checked to be non-negative, so the model takes any
  integer.

## Model

| member | source | states |
|---|---|---|
| `Statement.FoldAppend` | src/index.js:26-32 | folding over a statement with one more operation is one more fold step after the old result |
| `Statement.BalanceAppend` | src/index.js:25-35 | appending a credit of `a` raises the balance by `a`; appending any other operation lowers it by its amount |
| `Statement.BalanceIsCreditsMinusDebits` | src/index.js:25-35 | the fold from 0 equals the total credited minus the total debited, computed independently |
| `Statement.OnDay` | src/index.js:115-117 | the by-day filter returns only operations of the statement made on that day; it drops no operation of that day; each operation occurs exactly as often as in the statement when it is of that day, otherwise never |
| `Statement.OnDayConcat` | src/index.js:115-117 | filtering keeps statement order: filtering `a + b` gives the matches of `a` followed by the matches of `b` |
| `Statement.OnDayAppend` | src/index.js:115-117 | a newly appended operation goes at the end of its own day's result and appears in no other day's result |
| `Statement.Deposited` | src/index.js:74-81 | a deposit appends exactly one credit with the given description, amount and day; earlier operations are unchanged and the balance rises by the amount |
| `Statement.Withdrawn` | src/index.js:90-102 | a withdrawal fails with InsufficientFunds exactly when balance < amount (equality is accepted); otherwise it appends one debit, the balance drops by the amount and stays >= 0 |
| `Statement.ReplayNeverOverdrawn` | src/index.js:69-105 | for any request sequence with no negative deposit, starting from an empty statement, the balance is never negative |
| `Statement.ReplayCredits` | src/index.js:74-81 | after any request sequence on a fresh account, the credits equal the sum of all deposit amounts |
| `Statement.ReplayDebits` | src/index.js:90-102 | after any request sequence on a fresh account, the debits equal the sum of the withdrawals that passed the funds check when handled (`Accepted`); a refused withdrawal records nothing |
| `Statement.ReplayBalance` | src/index.js:69-105 | after any request sequence on a fresh account, the balance equals the sum of the deposits minus the sum of the withdrawals accepted at their time |
| `Store.Find` | src/index.js:13 | returns the position of the first record with the given tax ID, or None exactly when no record has it |
| `Store.HasCpf` | src/index.js:43-45 | true exactly when some record has the given tax ID |
| `Store.Resolve` | src/index.js:9-23 | succeeds exactly when some record has the tax ID, yielding the first such record; otherwise fails with CustomerNotFound; when tax IDs are distinct, the record found is the only match |
| `Store.AppendFreshKeepsDistinct` | src/index.js:43-58 | appending a record whose tax ID is not yet on the list keeps tax IDs pairwise distinct |
| `Store.UpdateKeepsDistinct` | src/index.js:81 | replacing a record with one of the same tax ID keeps tax IDs distinct; this is used for statement pushes and the rename |
| `Store.SpliceOne` | src/index.js:140 | `splice(start, 1)` removes the element at `start`, or nothing past the end; the rest keep their order; the multiset loses exactly that element; distinct tax IDs stay distinct |
| `Store.DeleteAsWrittenMissesResolved` | src/index.js:137-143 | when the resolved customer is not first, deletion as written leaves that customer resolvable and removes the first customer instead |
| `Store.DeleteAsWrittenExample` | src/index.js:140 | with records 111 and 222, deleting 222 resolves position 1 but leaves only record 222 |
| `Store.RemoveResolved` | src/index.js:137-143 | splicing at the resolved position removes exactly that record: the tax ID no longer resolves, tax IDs stay distinct, and every other record is kept |
| `Bank.Ledger.constructor` | src/index.js:6 | the list starts empty and satisfies the invariant |
| `Bank.Ledger.CreateAccount` | src/index.js:39-62 | a tax ID already on the list fails with CustomerAlreadyExists and leaves the list unchanged; otherwise exactly one record is appended, with an empty statement; tax IDs stay distinct |
| `Bank.Ledger.GetAccount` | src/index.js:131-135 | returns the resolved record, or CustomerNotFound |
| `Bank.Ledger.UpdateName` | src/index.js:122-129 | overwrites only the resolved record's name; every other record and field is unchanged; an unknown tax ID changes nothing |
| `Bank.Ledger.DeleteAccount` | src/index.js:137-143 | as written: for a resolved tax ID, drops the first record of the list and answers with the remaining list; an unknown tax ID changes nothing |
| `Bank.Ledger.Deposit` | src/index.js:69-84 | appends one credit to the resolved record's statement; its balance rises by the amount; every other record is unchanged; the new statement is `Handle` of the deposit request, so the replay lemmas apply |
| `Bank.Ledger.Withdraw` | src/index.js:86-105 | balance < amount fails with InsufficientFunds and changes nothing; otherwise appends one debit to the resolved statement; the balance drops by the amount and stays >= 0; every other record is unchanged; the new statement is `Handle` of the withdrawal request |
| `Bank.Ledger.GetStatement` | src/index.js:64-67 | returns the resolved record's whole statement in order, or CustomerNotFound |
| `Bank.Ledger.GetStatementByDate` | src/index.js:107-120 | returns the resolved statement filtered to the requested day; an unparseable date matches nothing; an unknown tax ID gives CustomerNotFound |
| `Bank.Ledger.GetBalance` | src/index.js:145-151 | returns the resolved statement's balance, which equals credits minus debits; an unknown tax ID gives CustomerNotFound |

## Left out

- The Express framework glue: middleware registration, routes, JSON bodies, status codes and `listen` (src/index.js:1-4, 37, 153). Each handler is a method, and each error is an `Error` value whose text is `Errors.Message`.
- `uuidv4()`: the new record's `id` is a parameter of `CreateAccount`. The model does not state that ids are unique.
- Clock and date handling: `createdAt` is an integer day number. The query date is `Option<int>`, where None stands for a string that does not parse. The model leaves out local time zones, `toDateString` and the time of day.
- JavaScript number semantics: amounts are mathematical integers. The model does not cover floating-point rounding, or coercion of a missing or string `amount` or `cpf`.
- Bank.Ledger.Deposit: the description is a string, so the case of a request body without one is not modelled.
- Concurrency: each handler is one atomic method call, as it is under the single-threaded event loop.
- Object identity: a customer object mutated through the resolver's reference is modelled as replacing the list element at the resolved position.

## Findings

| source | as written | input that shows it | evidently intended | confidence | as-written member | corrected member |
|---|---|---|---|---|---|---|
| src/index.js:140 | `customers.splice(customer, 1)` passes the record as the start index; it becomes NaN, then 0, so the first record is removed | records `111`, `222`; DELETE /account with header `cpf: 222` leaves only `222` | remove the record at the resolved position | high (not executed) | `Store.DeleteAsWrittenMissesResolved` | `Store.RemoveResolved` |

/**
  The in-memory ledger: the list of customer records the HTTP handlers share,
  and one method per handler. Every handler but account creation first goes
  through the account resolver and answers "Customer not found!" when the
  `cpf` header matches no record.
*/
module Bank {
  import opened Wrappers
  import opened Errors
  import opened Statement
  import opened Store

  class Ledger {
    var customers: seq<Customer>

    /** The store's invariant: at most one record per tax ID. */
    ghost predicate Valid()
      reads this
    {
      CpfsDistinct(customers)
    }

    /** The store starts empty. */
    constructor ()
      ensures Valid() && customers == []
    {
      customers := [];
    }

    /** POST /account: refuse a tax ID already on record; otherwise append a
        record with an empty statement. `id` is the identifier drawn for it. */
    method CreateAccount(cpf: string, name: string, id: string) returns (r: Outcome<Error>)
      requires Valid()
      modifies this
      ensures Valid()
      ensures HasCpf(old(customers), cpf) ==>
                r == Fail(CustomerAlreadyExists) && customers == old(customers)
      ensures !HasCpf(old(customers), cpf) ==>
                r == Pass && customers == old(customers) + [Customer(cpf, name, id, [])]
    {
      if HasCpf(customers, cpf) {
        return Fail(CustomerAlreadyExists);
      }
      AppendFreshKeepsDistinct(customers, Customer(cpf, name, id, []));
      customers := customers + [Customer(cpf, name, id, [])];
      r := Pass;
    }

    /** GET /account: the resolved record. */
    method GetAccount(cpf: string) returns (r: Result<Customer, Error>)
      ensures Resolve(customers, cpf).Failure? ==> r == Failure(CustomerNotFound)
      ensures Resolve(customers, cpf).Success? ==>
                r.Success? && r.value.cpf == cpf && r.value in customers &&
                r.value == customers[Resolve(customers, cpf).value]
    {
      var found := Resolve(customers, cpf);
      if found.Failure? {
        return Failure(found.error);
      }
      r := Success(customers[found.value]);
    }

    /** PUT /account: overwrite the resolved customer's name, nothing else. */
    method UpdateName(cpf: string, name: string) returns (r: Outcome<Error>)
      requires Valid()
      modifies this
      ensures Valid()
      ensures match Resolve(old(customers), cpf)
              case Failure(e) => r == Fail(e) && customers == old(customers)
              case Success(i) =>
                r == Pass && customers == old(customers)[i := old(customers)[i].(name := name)]
    {
      var found := Resolve(customers, cpf);
      if found.Failure? {
        return Fail(found.error);
      }
      var i := found.value;
      UpdateKeepsDistinct(customers, i, customers[i].(name := name));
      customers := customers[i := customers[i].(name := name)];
      r := Pass;
    }

    /** DELETE /account, as written: `splice` is handed the customer record
        instead of its index, so the record at position 0 is removed whichever
        customer was resolved. Answers with the remaining records. */
    method DeleteAccount(cpf: string) returns (r: Result<seq<Customer>, Error>)
      requires Valid()
      modifies this
      ensures Valid()
      ensures match Resolve(old(customers), cpf)
              case Failure(e) => r == Failure(e) && customers == old(customers)
              case Success(_) =>
                customers == old(customers)[1..] && r == Success(customers)
    {
      var found := Resolve(customers, cpf);
      if found.Failure? {
        return Failure(found.error);
      }
      customers := SpliceOne(customers, CustomerAsSpliceStart);
      r := Success(customers);
    }

    /** POST /deposit: append a credit to the resolved customer's statement;
        its balance rises by `amount` and no other record changes. */
    method Deposit(cpf: string, description: string, amount: int, day: int) returns (r: Outcome<Error>)
      requires Valid()
      modifies this
      ensures Valid()
      ensures match Resolve(old(customers), cpf)
              case Failure(e) => r == Fail(e) && customers == old(customers)
              case Success(i) =>
                && r == Pass
                && customers == old(customers)[i := old(customers)[i].(statement :=
                     Deposited(old(customers)[i].statement, description, amount, day))]
                && Balance(customers[i].statement) == Balance(old(customers)[i].statement) + amount
                && customers[i].statement ==
                     Handle(old(customers)[i].statement, DepositRequest(description, amount, day))
    {
      var found := Resolve(customers, cpf);
      if found.Failure? {
        return Fail(found.error);
      }
      var i := found.value;
      var c := customers[i];
      UpdateKeepsDistinct(customers, i, c.(statement := Deposited(c.statement, description, amount, day)));
      customers := customers[i := c.(statement := Deposited(c.statement, description, amount, day))];
      r := Pass;
    }

    /** POST /withdraw: refuse with "Insufficient funds!" when the resolved
        customer's balance is below `amount`, leaving everything as it was;
        otherwise append a debit, which lowers the balance by `amount` and
        leaves it non-negative. */
    method Withdraw(cpf: string, amount: int, day: int) returns (r: Outcome<Error>)
      requires Valid()
      modifies this
      ensures Valid()
      ensures match Resolve(old(customers), cpf)
              case Failure(e) => r == Fail(e) && customers == old(customers)
              case Success(i) =>
                && (if Balance(old(customers)[i].statement) < amount then
                      r == Fail(InsufficientFunds) && customers == old(customers)
                    else
                      && r == Pass
                      && customers == old(customers)[i := old(customers)[i].(statement :=
                           old(customers)[i].statement + [Debit(amount, day)])]
                      && Balance(customers[i].statement) == Balance(old(customers)[i].statement) - amount
                      && Balance(customers[i].statement) >= 0)
                && customers[i].statement ==
                     Handle(old(customers)[i].statement, WithdrawRequest(amount, day))
    {
      var found := Resolve(customers, cpf);
      if found.Failure? {
        return Fail(found.error);
      }
      var i := found.value;
      var c := customers[i];
      match Withdrawn(c.statement, amount, day)
      case Failure(e) =>
        r := Fail(e);
      case Success(s) =>
        UpdateKeepsDistinct(customers, i, c.(statement := s));
        customers := customers[i := c.(statement := s)];
        r := Pass;
    }

    /** GET /statement: the resolved customer's whole statement, in order. */
    method GetStatement(cpf: string) returns (r: Result<seq<Op>, Error>)
      ensures Resolve(customers, cpf).Failure? ==> r == Failure(CustomerNotFound)
      ensures Resolve(customers, cpf).Success? ==>
                r == Success(customers[Resolve(customers, cpf).value].statement)
    {
      var found := Resolve(customers, cpf);
      if found.Failure? {
        return Failure(found.error);
      }
      r := Success(customers[found.value].statement);
    }

    /** GET /statement/date: the resolved customer's operations created on
        the requested day, in statement order. `date` is None when the query
        string is not a date; that invalid date matches no operation. */
    method GetStatementByDate(cpf: string, date: Option<int>) returns (r: Result<seq<Op>, Error>)
      ensures Resolve(customers, cpf).Failure? ==> r == Failure(CustomerNotFound)
      ensures Resolve(customers, cpf).Success? ==> r.Success?
      ensures Resolve(customers, cpf).Success? && date.None? ==> r.value == []
      ensures Resolve(customers, cpf).Success? && date.Some? ==>
                r.value == OnDay(customers[Resolve(customers, cpf).value].statement, date.value)
    {
      var found := Resolve(customers, cpf);
      if found.Failure? {
        return Failure(found.error);
      }
      var statement := customers[found.value].statement;
      match date
      case None =>
        r := Success([]);
      case Some(day) =>
        r := Success(OnDay(statement, day));
    }

    /** GET /balance: the balance of the resolved customer's statement. */
    method GetBalance(cpf: string) returns (r: Result<int, Error>)
      ensures Resolve(customers, cpf).Failure? ==> r == Failure(CustomerNotFound)
      ensures Resolve(customers, cpf).Success? ==>
                var s := customers[Resolve(customers, cpf).value].statement;
                r == Success(Balance(s)) && r.value == Credits(s) - Debits(s)
    {
      var found := Resolve(customers, cpf);
      if found.Failure? {
        return Failure(found.error);
      }
      var s := customers[found.value].statement;
      BalanceIsCreditsMinusDebits(s);
      r := Success(Balance(s));
    }
  }

  /** A session against a fresh ledger, with what a client can conclude from
      the handlers' contracts alone: create an account, deposit 100, withdraw
      30, the balance is 70, a withdrawal of 1000 is refused and the balance
      stays 70; an unknown tax ID is not found. */
  method ClientSession(day: int) returns (balance: Result<int, Error>)
    ensures balance == Success(70)
  {
    var ledger := new Ledger();
    var created := ledger.CreateAccount("111", "Alice", "id-1");
    assert created == Pass;
    var deposited := ledger.Deposit("111", "salary", 100, day);
    assert deposited == Pass;
    var withdrawn := ledger.Withdraw("111", 30, day);
    assert withdrawn == Pass;
    balance := ledger.GetBalance("111");
    var refused := ledger.Withdraw("111", 1000, day);
    assert refused == Fail(InsufficientFunds);
    var after := ledger.GetBalance("111");
    assert after == Success(70);
    var unknown := ledger.GetAccount("999");
    assert unknown == Failure(CustomerNotFound);
  }
}

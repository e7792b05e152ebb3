/**
  A customer's statement: the ordered, append-only list of credit and debit
  operations, the balance computed from it, the by-day query over it, and the
  two transactions that append to it.
*/
module Statement {
  import opened Wrappers
  import opened Errors

  /** One statement entry. A deposit records a credit with the description
      sent by the client; a withdrawal records a debit without one. `day`
      stands for the calendar day of `createdAt`. */
  datatype Op =
    | Credit(description: string, amount: int, day: int)
    | Debit(amount: int, day: int)

  /** One step of the balance fold: a credit adds its amount, anything else
      subtracts it. */
  function Step(acc: int, op: Op): int
  {
    if op.Credit? then acc + op.amount else acc - op.amount
  }

  /** The fold of `Step` over `ops`, left to right, from `acc`. */
  function Fold(acc: int, ops: seq<Op>): int
    decreases |ops|
  {
    if ops == [] then acc else Fold(Step(acc, ops[0]), ops[1..])
  }

  /** The balance of a statement: the fold started at zero. */
  function Balance(statement: seq<Op>): int
  {
    Fold(0, statement)
  }

  lemma {:induction false} FoldAppend(acc: int, ops: seq<Op>, op: Op)
    ensures Fold(acc, ops + [op]) == Step(Fold(acc, ops), op)
    decreases |ops|
  {
    if ops == [] {
      assert ops + [op] == [op];
      assert [op][1..] == [];
    } else {
      assert (ops + [op])[0] == ops[0];
      assert (ops + [op])[1..] == ops[1..] + [op];
      FoldAppend(Step(acc, ops[0]), ops[1..], op);
    }
  }

  /** Appending one operation moves the balance by that operation alone:
      up by a credit's amount, down by any other's. */
  lemma BalanceAppend(statement: seq<Op>, op: Op)
    ensures Balance(statement + [op]) ==
            if op.Credit? then Balance(statement) + op.amount
            else Balance(statement) - op.amount
  {
    FoldAppend(0, statement, op);
  }

  /** Sum of the amounts of the credits, independently of the fold. */
  function Credits(statement: seq<Op>): int
    decreases |statement|
  {
    if statement == [] then 0
    else
      var last := statement[|statement| - 1];
      Credits(statement[..|statement| - 1]) + (if last.Credit? then last.amount else 0)
  }

  /** Sum of the amounts of the debits, independently of the fold. */
  function Debits(statement: seq<Op>): int
    decreases |statement|
  {
    if statement == [] then 0
    else
      var last := statement[|statement| - 1];
      Debits(statement[..|statement| - 1]) + (if last.Debit? then last.amount else 0)
  }

  /** The fold computes the net sum: total credited minus total debited. */
  lemma {:induction false} BalanceIsCreditsMinusDebits(statement: seq<Op>)
    ensures Balance(statement) == Credits(statement) - Debits(statement)
    decreases |statement|
  {
    if statement == [] {
    } else {
      var init, last := statement[..|statement| - 1], statement[|statement| - 1];
      assert statement == init + [last];
      BalanceIsCreditsMinusDebits(init);
      BalanceAppend(init, last);
    }
  }

  /** The operations created on calendar day `day`, in statement order. */
  function OnDay(statement: seq<Op>, day: int): (r: seq<Op>)
    ensures |r| <= |statement|
    ensures forall op :: op in r ==> op in statement && op.day == day
    ensures forall op :: op in statement && op.day == day ==> op in r
    ensures forall op :: multiset(r)[op] == if op.day == day then multiset(statement)[op] else 0
    decreases |statement|
  {
    if statement == [] then []
    else
      assert statement == [statement[0]] + statement[1..];
      (if statement[0].day == day then [statement[0]] else []) + OnDay(statement[1..], day)
  }

  /** The query distributes over concatenation: the matches of an earlier
      part of the statement come first, in their own order. */
  lemma {:induction false} OnDayConcat(a: seq<Op>, b: seq<Op>, day: int)
    ensures OnDay(a + b, day) == OnDay(a, day) + OnDay(b, day)
    decreases |a|
  {
    if a == [] {
      assert a + b == b;
    } else {
      assert (a + b)[0] == a[0];
      assert (a + b)[1..] == a[1..] + b;
      OnDayConcat(a[1..], b, day);
    }
  }

  /** A new operation shows up at the end of the query for its own day and
      in no other day's query. */
  lemma OnDayAppend(statement: seq<Op>, op: Op, day: int)
    ensures OnDay(statement + [op], day) ==
            if op.day == day then OnDay(statement, day) + [op] else OnDay(statement, day)
  {
    OnDayConcat(statement, [op], day);
    var single: seq<Op> := [op];
    assert single[0] == op && single[1..] == [];
    assert OnDay(single, day) == if op.day == day then [op] else [];
  }

  /** POST /deposit: append a credit. */
  function Deposited(statement: seq<Op>, description: string, amount: int, day: int): (r: seq<Op>)
    ensures |r| == |statement| + 1 && r[..|statement|] == statement
    ensures r[|statement|] == Credit(description, amount, day)
    ensures Balance(r) == Balance(statement) + amount
  {
    BalanceAppend(statement, Credit(description, amount, day));
    statement + [Credit(description, amount, day)]
  }

  /** POST /withdraw: refuse when the balance is below the amount, otherwise
      append a debit. An amount equal to the balance is accepted. */
  function Withdrawn(statement: seq<Op>, amount: int, day: int): (r: Result<seq<Op>, Error>)
    ensures r.Failure? <==> Balance(statement) < amount
    ensures r.Failure? ==> r.error == InsufficientFunds
    ensures r.Success? ==> |r.value| == |statement| + 1 && r.value[..|statement|] == statement
    ensures r.Success? ==> r.value[|statement|] == Debit(amount, day)
    ensures r.Success? ==> Balance(r.value) == Balance(statement) - amount
    ensures r.Success? ==> Balance(r.value) >= 0
  {
    if Balance(statement) < amount then Failure(InsufficientFunds)
    else
      BalanceAppend(statement, Debit(amount, day));
      Success(statement + [Debit(amount, day)])
  }

  /** A transaction request against one account. */
  datatype Request =
    | DepositRequest(description: string, amount: int, day: int)
    | WithdrawRequest(amount: int, day: int)

  /** The statement after one request; a refused withdrawal leaves it as it was. */
  function Handle(statement: seq<Op>, req: Request): seq<Op>
  {
    match req
    case DepositRequest(description, amount, day) => Deposited(statement, description, amount, day)
    case WithdrawRequest(amount, day) =>
      match Withdrawn(statement, amount, day)
      case Success(s) => s
      case Failure(_) => statement
  }

  /** The statement of a fresh account after the requests, handled in order. */
  function Replay(reqs: seq<Request>): seq<Op>
    decreases |reqs|
  {
    if reqs == [] then []
    else Handle(Replay(reqs[..|reqs| - 1]), reqs[|reqs| - 1])
  }

  /** The sum of the amounts of the deposit requests. */
  function Deposits(reqs: seq<Request>): int
    decreases |reqs|
  {
    if reqs == [] then 0
    else
      var last := reqs[|reqs| - 1];
      Deposits(reqs[..|reqs| - 1]) + (if last.DepositRequest? then last.amount else 0)
  }

  /** With no negative deposit, an account's balance never goes below zero,
      whatever the withdrawals asked for: the funds check refuses every
      withdrawal that would overdraw it. */
  lemma {:induction false} ReplayNeverOverdrawn(reqs: seq<Request>)
    requires forall k :: 0 <= k < |reqs| && reqs[k].DepositRequest? ==> reqs[k].amount >= 0
    ensures Balance(Replay(reqs)) >= 0
    decreases |reqs|
  {
    if reqs != [] {
      var init := reqs[..|reqs| - 1];
      ReplayNeverOverdrawn(init);
    }
  }

  /** The sum of the amounts of the withdrawal requests that passed the
      funds check when they were handled: those asking for no more than the
      balance of the statement replayed so far. */
  function Accepted(reqs: seq<Request>): int
    decreases |reqs|
  {
    if reqs == [] then 0
    else
      var init, last := reqs[..|reqs| - 1], reqs[|reqs| - 1];
      Accepted(init) +
        (if last.WithdrawRequest? && last.amount <= Balance(Replay(init)) then last.amount else 0)
  }

  /** Every deposit is credited in full and nothing else is credited. */
  lemma {:induction false} ReplayCredits(reqs: seq<Request>)
    ensures Credits(Replay(reqs)) == Deposits(reqs)
    decreases |reqs|
  {
    if reqs != [] {
      var init := reqs[..|reqs| - 1];
      ReplayCredits(init);
      var s, s' := Replay(init), Replay(reqs);
      if s' != s {
        assert s'[..|s'| - 1] == s;
      }
    }
  }

  /** The debits are exactly the accepted withdrawals: a refused withdrawal
      records nothing. */
  lemma {:induction false} ReplayDebits(reqs: seq<Request>)
    ensures Debits(Replay(reqs)) == Accepted(reqs)
    decreases |reqs|
  {
    if reqs != [] {
      var init := reqs[..|reqs| - 1];
      ReplayDebits(init);
      var s, s' := Replay(init), Replay(reqs);
      if s' != s {
        assert s'[..|s'| - 1] == s;
      }
    }
  }

  /** The balance of a fresh account after any requests is the total
      deposited minus the total of the withdrawals accepted at their time;
      refused withdrawals leave it alone. */
  lemma ReplayBalance(reqs: seq<Request>)
    ensures Balance(Replay(reqs)) == Deposits(reqs) - Accepted(reqs)
  {
    ReplayCredits(reqs);
    ReplayDebits(reqs);
    BalanceIsCreditsMinusDebits(Replay(reqs));
  }
}

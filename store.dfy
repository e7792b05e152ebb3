/**
  The customer records of the ledger and the lookups the handlers make over
  them: the account resolver keyed by tax ID (cpf), the duplicate check of
  account creation, and the list removal that account deletion calls.
*/
module Store {
  import opened Wrappers
  import opened Errors
  import opened Statement

  /** A customer record: tax ID, name, the identifier drawn at creation, and
      the statement. */
  datatype Customer = Customer(cpf: string, name: string, id: string, statement: seq<Op>)

  /** No two records share a tax ID. */
  ghost predicate CpfsDistinct(customers: seq<Customer>)
  {
    forall i, j :: 0 <= i < j < |customers| ==> customers[i].cpf != customers[j].cpf
  }

  /** The position of the first record with tax ID `cpf`, as the list's
      `find` scans it, or None when there is none. */
  function Find(customers: seq<Customer>, cpf: string): (r: Option<nat>)
    ensures r.Some? ==> r.value < |customers| && customers[r.value].cpf == cpf
    ensures r.Some? ==> forall j :: 0 <= j < r.value ==> customers[j].cpf != cpf
    ensures r.None? ==> forall j :: 0 <= j < |customers| ==> customers[j].cpf != cpf
    decreases |customers|
  {
    if customers == [] then None
    else if customers[0].cpf == cpf then Some(0)
    else
      match Find(customers[1..], cpf)
      case None => None
      case Some(k) => Some(k + 1)
  }

  /** Whether some record has tax ID `cpf`, as the list's `some` tests it. */
  function HasCpf(customers: seq<Customer>, cpf: string): (b: bool)
    ensures b <==> exists j :: 0 <= j < |customers| && customers[j].cpf == cpf
    decreases |customers|
  {
    if customers == [] then false
    else customers[0].cpf == cpf || HasCpf(customers[1..], cpf)
  }

  /** The account resolver: the first record whose tax ID equals the `cpf`
      header, or "Customer not found!" when none does (the handler then does
      not run). Under distinct tax IDs the record found is the only match. */
  function Resolve(customers: seq<Customer>, cpf: string): (r: Result<nat, Error>)
    ensures r.Success? <==> HasCpf(customers, cpf)
    ensures r.Failure? ==> r.error == CustomerNotFound
    ensures r.Success? ==> r.value < |customers| && customers[r.value].cpf == cpf
    ensures r.Success? ==> forall j :: 0 <= j < r.value ==> customers[j].cpf != cpf
    ensures r.Success? && CpfsDistinct(customers) ==>
              forall j :: 0 <= j < |customers| && customers[j].cpf == cpf ==> j == r.value
  {
    match Find(customers, cpf)
    case None => Failure(CustomerNotFound)
    case Some(i) => Success(i)
  }

  /** Appending a record whose tax ID is not yet taken keeps tax IDs distinct. */
  lemma AppendFreshKeepsDistinct(customers: seq<Customer>, c: Customer)
    requires CpfsDistinct(customers)
    requires !HasCpf(customers, c.cpf)
    ensures CpfsDistinct(customers + [c])
  {
  }

  /** Changing any field but the tax ID keeps tax IDs distinct. */
  lemma UpdateKeepsDistinct(customers: seq<Customer>, i: nat, c: Customer)
    requires CpfsDistinct(customers)
    requires i < |customers| && c.cpf == customers[i].cpf
    ensures CpfsDistinct(customers[i := c])
  {
  }

  /** `splice(start, 1)`: remove the one element at `start`, or nothing when
      `start` is past the end. The others keep their order. */
  function SpliceOne(customers: seq<Customer>, start: nat): (r: seq<Customer>)
    ensures start < |customers| ==> |r| == |customers| - 1
    ensures start >= |customers| ==> r == customers
    ensures forall k :: 0 <= k < |r| && k < start ==> r[k] == customers[k]
    ensures forall k :: start <= k < |r| ==> r[k] == customers[k + 1]
    ensures start < |customers| ==> multiset(r) + multiset{customers[start]} == multiset(customers)
    ensures CpfsDistinct(customers) ==> CpfsDistinct(r)
  {
    if start < |customers| then
      assert customers == customers[..start] + [customers[start]] + customers[start + 1..];
      customers[..start] + customers[start + 1..]
    else customers
  }

  /** The start index `splice` gets when handed a customer record: the record
      converts to NaN, and a NaN start counts as 0. */
  const CustomerAsSpliceStart: nat := 0

  /** DELETE /account as written removes the first record, not the resolved
      one: when the resolved customer is not first, it stays resolvable and
      the first customer's account is gone instead. */
  lemma {:induction false} DeleteAsWrittenMissesResolved(customers: seq<Customer>, cpf: string)
    requires CpfsDistinct(customers)
    requires Resolve(customers, cpf).Success? && Resolve(customers, cpf).value > 0
    ensures var r := SpliceOne(customers, CustomerAsSpliceStart);
            HasCpf(r, cpf) && !HasCpf(r, customers[0].cpf)
  {
    var i := Resolve(customers, cpf).value;
    var r := SpliceOne(customers, CustomerAsSpliceStart);
    assert r[i - 1] == customers[i];
  }

  /** The smallest case: two accounts, delete the second. */
  lemma DeleteAsWrittenExample()
    ensures var a := Customer("111", "Alice", "a", []);
            var b := Customer("222", "Bob", "b", []);
            Resolve([a, b], "222") == Success(1) &&
            SpliceOne([a, b], CustomerAsSpliceStart) == [b]
  {
    var a := Customer("111", "Alice", "a", []);
    var b := Customer("222", "Bob", "b", []);
    assert [a, b][1..] == [b];
    assert "111" != "222";
  }

  /** Deletion as intended: splicing at the resolved index removes exactly
      the resolved record; the tax ID no longer resolves and every other
      record is kept, in order. */
  lemma {:induction false} RemoveResolved(customers: seq<Customer>, cpf: string)
    requires CpfsDistinct(customers)
    requires Resolve(customers, cpf).Success?
    ensures var r := SpliceOne(customers, Resolve(customers, cpf).value);
            && |r| == |customers| - 1
            && Resolve(r, cpf) == Failure(CustomerNotFound)
            && CpfsDistinct(r)
            && forall c :: c in customers && c.cpf != cpf ==> c in r
  {
    var i := Resolve(customers, cpf).value;
    var r := SpliceOne(customers, i);
    forall c | c in customers && c.cpf != cpf
      ensures c in r
    {
      var k :| 0 <= k < |customers| && customers[k] == c;
      if k < i {
        assert r[k] == c;
      } else {
        assert k != i;
        assert r[k - 1] == c;
      }
    }
  }
}

/** The balances of one chain: each account has a free and a reserved part, and the pallets move money
    only by reserving, unreserving and repatriating reserves. */
module Ledger {
  import opened Common
  import opened Sums

  datatype Account = Account(free: Balance, reserved: Balance)

  /** An account that is not filed has nothing; an account that has nothing does not exist. */
  type Accounts = map<AccountId, Account>

  datatype Booking = Booking(accounts: Accounts, out: Outcome)

  function Of(l: Accounts, a: AccountId): Account {
    if a in l then l[a] else Account(0, 0)
  }

  function Free(l: Accounts, a: AccountId): Balance { Of(l, a).free }

  function Reserved(l: Accounts, a: AccountId): Balance { Of(l, a).reserved }

  function Total(l: Accounts, a: AccountId): int { Free(l, a) + Reserved(l, a) }

  predicate Exists(l: Accounts, a: AccountId) { Total(l, a) > 0 }

  function Min(x: Balance, y: Balance): Balance { if x <= y then x else y }

  function SaturatingAdd(x: Balance, y: Balance): Balance { if x + y < U128 then x + y else U128 - 1 }

  function Reserve(l: Accounts, a: AccountId, v: Balance): Booking {
    if v == 0 then Booking(l, Ok)
    else if Free(l, a) < v then Booking(l, Err(InsufficientBalance))
    else if Reserved(l, a) + v >= U128 then Booking(l, Err(Overflow))
    else Booking(l[a := Account(Free(l, a) - v, Reserved(l, a) + v)], Ok)
  }

  function Unreserve(l: Accounts, a: AccountId, v: Balance): Accounts {
    var moved := Min(Reserved(l, a), v);
    if moved == 0 then l
    else l[a := Account(SaturatingAdd(Free(l, a), moved), Reserved(l, a) - moved)]
  }

  function Repatriate(l: Accounts, from: AccountId, to: AccountId, v: Balance): Booking {
    if v == 0 then Booking(l, Ok)
    else if from == to then Booking(Unreserve(l, from, v), Ok)
    else if !Exists(l, to) then Booking(l, Err(DeadAccount))
    else
      var moved := Min(Reserved(l, from), v);
      if Free(l, to) + moved >= U128 then Booking(l, Err(Overflow))
      else if moved == 0 then Booking(l, Ok)
      else Booking(l[from := Account(Free(l, from), Reserved(l, from) - moved)]
                    [to := Account(Free(l, to) + moved, Reserved(l, to))], Ok)
  }

  // ----- Issuance ---------------------------------------------------------------------------

  ghost function Totals(l: Accounts): map<nat, int> {
    map a | a in l :: l[a].free + l[a].reserved
  }

  /** All the money on the chain. */
  ghost function Issuance(l: Accounts): int {
    Sum(Totals(l))
  }

  lemma IssuanceUpdate(l: Accounts, a: AccountId, x: Account)
    ensures Issuance(l[a := x]) == Issuance(l) - Total(l, a) + x.free + x.reserved
  {
    SumUpdate(Totals(l), a, x.free + x.reserved);
    assert Totals(l[a := x]) == Totals(l)[a := x.free + x.reserved];
  }

  lemma IssuanceBoundsOne(l: Accounts, a: AccountId)
    ensures 0 <= Total(l, a) <= Issuance(l)
  {
    var m := Totals(l);
    SumNonNegative(m);
    if a in l {
      SumPick(m, a);
      SumNonNegative(m - {a});
    }
  }

  lemma IssuanceBoundsTwo(l: Accounts, a: AccountId, b: AccountId)
    requires a != b
    ensures Total(l, a) + Total(l, b) <= Issuance(l)
  {
    IssuanceBoundsOne(l, a);
    IssuanceBoundsOne(l, b);
    var m := Totals(l);
    if a in l && b in l {
      SumPick(m, a);
      SumPick(m - {a}, b);
      SumNonNegative(m - {a} - {b});
    }
  }

  lemma ReserveConserves(l: Accounts, a: AccountId, v: Balance)
    requires Issuance(l) < U128
    ensures Issuance(Reserve(l, a, v).accounts) == Issuance(l)
    ensures Reserve(l, a, v).out != Err(Overflow)
  {
    IssuanceBoundsOne(l, a);
    if 0 < v <= Free(l, a) {
      IssuanceUpdate(l, a, Account(Free(l, a) - v, Reserved(l, a) + v));
    }
  }

  lemma UnreserveConserves(l: Accounts, a: AccountId, v: Balance)
    requires Issuance(l) < U128
    ensures Issuance(Unreserve(l, a, v)) == Issuance(l)
    ensures Total(Unreserve(l, a, v), a) == Total(l, a)
  {
    IssuanceBoundsOne(l, a);
    var moved := Min(Reserved(l, a), v);
    IssuanceUpdate(l, a, Account(SaturatingAdd(Free(l, a), moved), Reserved(l, a) - moved));
  }

  lemma RepatriateConserves(l: Accounts, from: AccountId, to: AccountId, v: Balance)
    requires Issuance(l) < U128
    ensures Issuance(Repatriate(l, from, to, v).accounts) == Issuance(l)
    ensures Repatriate(l, from, to, v).out != Err(Overflow)
  {
    if from == to {
      UnreserveConserves(l, from, v);
    } else {
      IssuanceBoundsTwo(l, from, to);
      var moved := Min(Reserved(l, from), v);
      if v > 0 && Exists(l, to) && moved > 0 {
        var debit := Account(Free(l, from), Reserved(l, from) - moved);
        IssuanceUpdate(l, from, debit);
        IssuanceUpdate(l[from := debit], to, Account(Free(l, to) + moved, Reserved(l, to)));
      }
    }
  }

  // ----- What each call does, for any value ----------------------------------------------------

  lemma ReserveIff(l: Accounts, a: AccountId, v: Balance)
    requires Issuance(l) < U128
    ensures var b := Reserve(l, a, v);
            var moved := if v <= Free(l, a) then v else 0;
            && b.out == (if v <= Free(l, a) then Ok else Err(InsufficientBalance))
            && forall x :: Free(b.accounts, x) == Free(l, x) - (if x == a then moved else 0)
                        && Reserved(b.accounts, x) == Reserved(l, x) + (if x == a then moved else 0)
  {
    IssuanceBoundsOne(l, a);
  }

  lemma UnreserveExactly(l: Accounts, a: AccountId, v: Balance)
    requires Issuance(l) < U128
    ensures var l' := Unreserve(l, a, v);
            var moved := if v <= Reserved(l, a) then v else Reserved(l, a);
            forall x :: Free(l', x) == Free(l, x) + (if x == a then moved else 0)
                     && Reserved(l', x) == Reserved(l, x) - (if x == a then moved else 0)
  {
    IssuanceBoundsOne(l, a);
  }

  lemma RepatriateExactly(l: Accounts, from: AccountId, to: AccountId, v: Balance)
    requires Issuance(l) < U128
    ensures var b := Repatriate(l, from, to, v);
            var moved := if v <= Reserved(l, from) then v else Reserved(l, from);
            && b.out == (if v == 0 || from == to || Exists(l, to) then Ok else Err(DeadAccount))
            && (b.out.Err? ==> b.accounts == l)
            && (b.out == Ok ==>
                  forall x :: Free(b.accounts, x) == Free(l, x) + (if x == to then moved else 0)
                           && Reserved(b.accounts, x) == Reserved(l, x) - (if x == from then moved else 0))
  {
    RepatriateConserves(l, from, to, v);
    UnreserveExactly(l, from, v);
  }

  /** Repatriating enriches `to` at the expense of `from`, by the value at most. */
  lemma RepatriateShifts(l: Accounts, from: AccountId, to: AccountId, v: Balance)
    requires Issuance(l) < U128
    ensures var l' := Repatriate(l, from, to, v).accounts;
            && (forall a :: a != from && a != to ==> Total(l', a) == Total(l, a))
            && (from == to ==> Total(l', from) == Total(l, from))
            && Total(l', from) + Total(l', to) == Total(l, from) + Total(l, to)
            && Total(l, to) <= Total(l', to) <= Total(l, to) + v
  {
    if from == to {
      UnreserveConserves(l, from, v);
    }
  }

  /** An account that does not exist is not credited. */
  lemma GoneStaysGone(l: Accounts, c: AccountId, from: AccountId, to: AccountId, v: Balance)
    requires !Exists(l, c)
    ensures !Exists(Reserve(l, from, v).accounts, c)
    ensures !Exists(Unreserve(l, from, v), c)
    ensures !Exists(Repatriate(l, from, to, v).accounts, c)
  {
  }

  /** The chain's balances pallet: the calls the two pallets make on it. */
  class Balances {
    var accounts: Accounts

    constructor (genesis: Accounts)
      ensures accounts == genesis
    {
      accounts := genesis;
    }

    method CanReserve(who: AccountId, value: Balance) returns (ok: bool)
      ensures ok <==> Reserve(accounts, who, value).out != Err(InsufficientBalance)
    {
      if value == 0 { return true; }
      ok := value <= Of(accounts, who).free;
    }

    method TryReserve(who: AccountId, value: Balance) returns (out: Outcome)
      modifies this
      ensures Booking(accounts, out) == Reserve(old(accounts), who, value)
    {
      if value == 0 { return Ok; }
      var account := Of(accounts, who);
      if account.free < value { return Err(InsufficientBalance); }
      if account.reserved + value >= U128 { return Err(Overflow); }
      accounts := accounts[who := Account(account.free - value, account.reserved + value)];
      return Ok;
    }

    /** Returns what could not be unreserved; no caller looks at it. */
    method Release(who: AccountId, value: Balance) returns (missing: Balance)
      modifies this
      ensures accounts == Unreserve(old(accounts), who, value)
      ensures missing == value - Min(Reserved(old(accounts), who), value)
    {
      if value == 0 { return 0; }
      var account := Of(accounts, who);
      if account.free + account.reserved == 0 { return value; }
      var actual := Min(account.reserved, value);
      if actual > 0 {
        accounts := accounts[who := Account(SaturatingAdd(account.free, actual), account.reserved - actual)];
      }
      return value - actual;
    }

    method TryRepatriate(from: AccountId, to: AccountId, value: Balance) returns (out: Outcome)
      modifies this
      ensures Booking(accounts, out) == Repatriate(old(accounts), from, to, value)
    {
      if value == 0 { return Ok; }
      if from == to {
        var _ := Release(from, value);
        return Ok;
      }
      var payee := Of(accounts, to);
      if payee.free + payee.reserved == 0 { return Err(DeadAccount); }
      var payer := Of(accounts, from);
      var actual := Min(payer.reserved, value);
      if payee.free + actual >= U128 { return Err(Overflow); }
      if actual > 0 {
        accounts := accounts[from := Account(payer.free, payer.reserved - actual)];
        accounts := accounts[to := Account(payee.free + actual, payee.reserved)];
      }
      return Ok;
    }
  }
}

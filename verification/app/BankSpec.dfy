/** The bank's ledger as a value, and what each operation does to it. */
module BankSpec {
  import opened Prelude
  import opened Sums

  /** Balances by token id and account; a missing entry reads 0. Every balance is a `uint256`. */
  datatype BankState = BankState(balances: map<Bytes, map<Address, nat>>)

  function Accounts(b: BankState, id: Bytes): map<Address, nat> {
    if id in b.balances then b.balances[id] else map[]
  }

  function BalanceOf(b: BankState, id: Bytes, account: Address): nat {
    At(Accounts(b, id), account)
  }

  function SetBalance(b: BankState, id: Bytes, account: Address, amount: nat): BankState {
    b.(balances := b.balances[id := Accounts(b, id)[account := amount]])
  }

  /** The sum of all balances of a token id. */
  ghost function Supply(b: BankState, id: Bytes): nat {
    MapSum(Accounts(b, id))
  }

  /** Unchecked crediting, as the contract's `+=` does it. */
  function Credit(b: BankState, id: Bytes, account: Address, amount: nat): BankState {
    SetBalance(b, id, account, Add256(BalanceOf(b, id, account), amount))
  }

  function Debit(b: BankState, id: Bytes, account: Address, amount: nat): Result<BankState> {
    var _ :- Require(BalanceOf(b, id, account) >= amount);
    Ok(SetBalance(b, id, account, BalanceOf(b, id, account) - amount))
  }

  function TransferFrom(b: BankState, from: Address, to: Address, id: Bytes, amount: nat): Result<BankState> {
    var _ :- Require(to != ZERO_ADDRESS);
    var b1 :- Debit(b, id, from, amount);
    Ok(Credit(b1, id, to, amount))
  }

  // ----- What the operations do to balances and supplies -----

  lemma SetBalanceEffect(b: BankState, id: Bytes, account: Address, amount: nat)
    ensures forall i, a :: BalanceOf(SetBalance(b, id, account, amount), i, a)
                           == if i == id && a == account then amount else BalanceOf(b, i, a)
    ensures forall i :: Supply(SetBalance(b, id, account, amount), i)
                        == if i == id then Supply(b, id) - BalanceOf(b, id, account) + amount else Supply(b, i)
  {
    MapSumUpdate(Accounts(b, id), account, amount);
  }

  lemma BalanceWithinSupply(b: BankState, id: Bytes, account: Address)
    ensures BalanceOf(b, id, account) <= Supply(b, id)
  {
    MapSumTerm(Accounts(b, id), account);
  }

  /** A credit that keeps the supply below 2^256 does not wrap. */
  lemma CreditEffect(b: BankState, id: Bytes, account: Address, amount: nat)
    requires Supply(b, id) + amount < TWO_256
    ensures forall i, a :: BalanceOf(Credit(b, id, account, amount), i, a)
                           == BalanceOf(b, i, a) + if i == id && a == account then amount else 0
    ensures forall i :: Supply(Credit(b, id, account, amount), i) == Supply(b, i) + if i == id then amount else 0
  {
    hide Supply, BalanceOf, SetBalance, Add256;
    BalanceWithinSupply(b, id, account);
    SumFits(BalanceOf(b, id, account), amount);
    SetBalanceEffect(b, id, account, BalanceOf(b, id, account) + amount);
  }

  lemma SumFits(x: nat, y: nat)
    requires x + y < TWO_256
    ensures Add256(x, y) == x + y
  {
  }

  lemma DebitEffect(b: BankState, id: Bytes, account: Address, amount: nat)
    requires Debit(b, id, account, amount).Ok?
    ensures var c := Debit(b, id, account, amount).value;
            && (forall i, a :: BalanceOf(c, i, a)
                               == if i == id && a == account then BalanceOf(b, i, a) - amount else BalanceOf(b, i, a))
            && Supply(b, id) >= amount
            && (forall i :: Supply(c, i) == if i == id then Supply(b, i) - amount else Supply(b, i))
  {
    BalanceWithinSupply(b, id, account);
    SetBalanceEffect(b, id, account, BalanceOf(b, id, account) - amount);
  }

  /** A transfer moves the amount and leaves every supply as it was. */
  lemma TransferEffect(b: BankState, from: Address, to: Address, id: Bytes, amount: nat)
    requires Supply(b, id) < TWO_256
    requires TransferFrom(b, from, to, id, amount).Ok?
    ensures var c := TransferFrom(b, from, to, id, amount).value;
            && (forall i, a :: BalanceOf(c, i, a)
                               == if i != id || from == to then BalanceOf(b, i, a)
                                  else if a == from then BalanceOf(b, i, a) - amount
                                  else if a == to then BalanceOf(b, i, a) + amount
                                  else BalanceOf(b, i, a))
            && (forall i :: Supply(c, i) == Supply(b, i))
  {
    DebitEffect(b, id, from, amount);
    CreditEffect(Debit(b, id, from, amount).value, id, to, amount);
  }

  /** Whatever the ledger, crediting adds modulo 2^256. */
  lemma CreditWraps(b: BankState, id: Bytes, account: Address, amount: nat)
    ensures forall i, a :: BalanceOf(Credit(b, id, account, amount), i, a)
                           == if i == id && a == account then (BalanceOf(b, id, account) + amount) % TWO_256
                              else BalanceOf(b, i, a)
  {
    hide Supply, SetBalance, BalanceOf;
    SetBalanceEffect(b, id, account, Add256(BalanceOf(b, id, account), amount));
  }

  /** Whatever the ledger, a transfer needs a receiver and the whole amount, and then moves it. */
  lemma TransferExactly(b: BankState, from: Address, to: Address, id: Bytes, amount: nat)
    ensures var r := TransferFrom(b, from, to, id, amount);
            && (r.Ok? <==> to != ZERO_ADDRESS && BalanceOf(b, id, from) >= amount)
            && (r.Ok? ==>
                  forall i, a :: BalanceOf(r.value, i, a)
                                 == if i != id then BalanceOf(b, i, a)
                                    else if a == to
                                    then (BalanceOf(b, id, to) - (if to == from then amount else 0) + amount) % TWO_256
                                    else BalanceOf(b, id, a) - if a == from then amount else 0)
  {
    hide Supply, SetBalance, BalanceOf, Credit;
    if to != ZERO_ADDRESS && BalanceOf(b, id, from) >= amount {
      DebitEffect(b, id, from, amount);
      CreditWraps(Debit(b, id, from, amount).value, id, to, amount);
    }
  }
}

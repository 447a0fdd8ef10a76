/** What the bank's own entry points ask for in a run, and whose money they move. */
module BankAcceptance {
  import opened Prelude
  import opened Sums
  import opened AddressText
  import opened BankSpec
  import opened ChainSpec
  import opened Conservation
  import opened MoneySteps
  import opened World
  import opened History
  import opened Books
  import opened Theorems

  /** One balance differs, by this much. */
  ghost predicate OnlyDiffers(b: BankState, d: BankState, id: Bytes, account: Address, change: int) {
    forall i, a :: BalanceOf(d, i, a) == BalanceOf(b, i, a) + if i == id && a == account then change else 0
  }

  /**
   A withdrawal goes through exactly if the caller's balance covers it and the token contract pays;
   it takes the amount from the caller and from nobody else, and the bank always holds enough.
   */
  lemma WithdrawnExactly(setup: Setup, steps: seq<Step>, c: Chain, peer: Chain, caller: Address, token: Address, amount: nat,
                         paid: bool)
    requires After(setup, steps, c, peer)
    ensures var id := AddressToString(token);
            var change := 0 - amount as int;
            var r := ChainSpec.Withdraw(c, caller, token, amount, paid);
            && (r.Ok? <==> paid && BalanceOf(c.bank, id, caller) >= amount)
            && (r.Ok? ==>
                  && At(c.erc20Held, token) >= amount
                  && r.value == c.(bank := r.value.bank, erc20Held := c.erc20Held[token := At(c.erc20Held, token) - amount])
                  && OnlyDiffers(c.bank, r.value.bank, id, caller, change))
  {
    hide After, AddressToString, BalanceOf, Supply, Debit;
    var id := AddressToString(token);
    Solvent(setup, steps, c, peer, token);
    BalanceWithinSupply(c.bank, id, caller);
    DebitIf(c.bank, id, caller, amount);
    if Debit(c.bank, id, caller, amount).Ok? {
      DebitEffect(c.bank, id, caller, amount);
    }
  }

  lemma DebitIf(b: BankState, id: Bytes, account: Address, amount: nat)
    ensures Debit(b, id, account, amount).Ok? <==> BalanceOf(b, id, account) >= amount
  {
  }

  /** A deposit goes through exactly if the token contract takes it; it credits the receiver alone. */
  lemma DepositedExactly(setup: Setup, steps: seq<Step>, c: Chain, peer: Chain, token: Address, amount: nat, receiver: Address,
                         paid: bool)
    requires After(setup, steps, c, peer)
    ensures var id := AddressToString(token);
            var r := ChainSpec.Deposit(c, token, amount, receiver, paid);
            && (r.Ok? <==> paid && At(c.erc20Held, token) + amount < TWO_256)
            && (r.Ok? ==>
                  && r.value.host == c.host && r.value.erc20Held == c.erc20Held[token := At(c.erc20Held, token) + amount]
                  && OnlyDiffers(c.bank, r.value.bank, id, receiver, amount))
  {
    hide After, AddressToString, BalanceOf, Supply, Credit, PaidDirectly;
    Solvent(setup, steps, c, peer, token);
    if ChainSpec.Deposit(c, token, amount, receiver, paid).Ok? {
      CreditEffect(c.bank, AddressToString(token), receiver, amount);
    }
  }

  /** A holder's transfer goes through exactly if the balance covers it; it moves the amount and nothing else. */
  lemma TransferredExactly(setup: Setup, steps: seq<Step>, c: Chain, peer: Chain, caller: Address, to: Address, denom: Bytes,
                           amount: nat)
    requires After(setup, steps, c, peer)
    ensures var r := ChainSpec.BankTransfer(c, caller, to, denom, amount);
            && (r.Ok? <==> to != ZERO_ADDRESS && BalanceOf(c.bank, denom, caller) >= amount)
            && (r.Ok? ==>
                  && r.value.host == c.host && r.value.erc20Held == c.erc20Held
                  && forall i, a :: BalanceOf(r.value.bank, i, a)
                                    == BalanceOf(c.bank, i, a)
                                       + (if i == denom && a == to then amount else 0)
                                       - (if i == denom && a == caller then amount else 0))
  {
    hide After, BalanceOf, Supply, Credit, Debit, PaidDirectly;
    NoWrap(setup, steps, c, peer, denom, caller);
    DebitIf(c.bank, denom, caller, amount);
    if TransferFrom(c.bank, caller, to, denom, amount).Ok? {
      TransferEffect(c.bank, caller, to, denom, amount);
    }
  }
}

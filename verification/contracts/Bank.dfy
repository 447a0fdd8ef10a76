/** The bank contract and the transfer application's view of it. */
module BankContract {
  import opened Prelude
  import opened Sums
  import opened BigEndianBytes
  import opened BankSpec
  import opened AddressText

  // ----- Text of addresses -----

  /** `addressToString`. */
  method AddressToStringLoop(a: Address) returns (text: Bytes)
    ensures text == AddressToString(a)
  {
    hide HexText, HexDigit;
    var str := new byte[42](_ => 0);
    str[0], str[1] := 48, 120;
    HexTextNone(a);
    for i := 0 to 20
      invariant str[0] == 48 && str[1] == 120
      invariant str[2..2 + 2 * i] == HexText(a[..i])
    {
      str[2 + i * 2] := HexDigit(a[i] as int / 16);
      str[2 + 1 + i * 2] := HexDigit(a[i] as int % 16);
      HexTextMore(a, i);
      assert str[2..2 + 2 * (i + 1)] == str[2..2 + 2 * i] + [str[2 + i * 2], str[3 + i * 2]];
    }
    assert a[..20] == a;
    assert str[..] == str[0..2] + str[2..42];
    return str[..];
  }

  lemma HexTextNone(a: Bytes)
    ensures HexText(a[..0]) == []
  {
  }

  lemma HexTextMore(a: Bytes, i: nat)
    requires i < |a|
    ensures HexText(a[..i + 1]) == HexText(a[..i]) + [HexDigit(a[i] as int / 16), HexDigit(a[i] as int % 16)]
  {
    assert a[..i + 1][..i] == a[..i];
  }

  /** `parseAddr`, with a `uint160` accumulator; reverts where the text is too short. */
  method ParseAddrLoop(text: Bytes) returns (r: Result<Address>)
    ensures r == ParseAddr(text)
  {
    hide DigitValue;
    var iaddr: nat := 0;
    var i: nat := 2;
    while i < 2 + 2 * 20
      invariant 2 <= i <= 42 && i % 2 == 0 && (i > 2 ==> i <= |text|)
      invariant |text| >= i ==> iaddr == ParsePairs(text, (i - 2) / 2)
      invariant i == 2 ==> iaddr == 0
      decreases 42 - i
    {
      if i + 1 >= |text| {
        return Revert;
      }
      iaddr := iaddr * 256 % TWO_160;
      var b1, b2 := DigitValue(text[i]), DigitValue(text[i + 1]);
      iaddr := (iaddr + b1 * 16 + b2) % TWO_160;
      i := i + 2;
    }
    return Ok(BigEndian(iaddr, 20));
  }

  // ----- The contract -----

  class ICS20Bank {
    var balances: map<Bytes, map<Address, nat>>
    var operators: set<Address>
    /** What the token contracts hold for the bank. */
    var erc20Held: map<Address, nat>

    ghost function State(): BankState
      reads this
    {
      BankState(balances)
    }

    constructor ()
      ensures State() == BankState(map[]) && operators == {} && erc20Held == map[]
    {
      balances, operators, erc20Held := map[], {}, map[];
    }

    /** What a revert does to the ledger. */
    method RestoreBalances(saved: map<Bytes, map<Address, nat>>)
      modifies this
      ensures State() == BankState(saved) && operators == old(operators) && erc20Held == old(erc20Held)
    {
      balances := saved;
    }

    method SetOperator(operator: Address, isAdmin: bool) returns (r: Result<()>)
      modifies this
      ensures r.Ok? <==> isAdmin
      ensures operators == if isAdmin then old(operators) + {operator} else old(operators)
      ensures State() == old(State()) && erc20Held == old(erc20Held)
    {
      if !isAdmin {
        return Revert;
      }
      operators := operators + {operator};
      return Ok(());
    }

    method Balance(id: Bytes, account: Address) returns (amount: nat)
      ensures amount == BalanceOf(State(), id, account)
    {
      return if id in balances && account in balances[id] then balances[id][account] else 0;
    }

    method SetBalance(id: Bytes, account: Address, amount: nat)
      modifies this
      ensures State() == BankSpec.SetBalance(old(State()), id, account, amount)
      ensures operators == old(operators) && erc20Held == old(erc20Held)
    {
      balances := balances[id := (if id in balances then balances[id] else map[])[account := amount]];
    }

    /** Only the holder or an operator may move tokens; a revert leaves the ledger as it was. */
    method TransferFrom(sender: Address, from: Address, to: Address, id: Bytes, amount: nat) returns (r: Result<()>)
      modifies this
      ensures r.Ok? <==> (from == sender || sender in operators) && BankSpec.TransferFrom(old(State()), from, to, id, amount).Ok?
      ensures State() == if r.Ok? then BankSpec.TransferFrom(old(State()), from, to, id, amount).value else old(State())
      ensures operators == old(operators) && erc20Held == old(erc20Held)
    {
      if to == ZERO_ADDRESS || !(from == sender || sender in operators) {
        return Revert;
      }
      var fromBalance := Balance(id, from);
      if fromBalance < amount {
        return Revert;
      }
      SetBalance(id, from, fromBalance - amount);
      var toBalance := Balance(id, to);
      SetBalance(id, to, Add256(toBalance, amount));
      return Ok(());
    }

    method MintUnchecked(account: Address, id: Bytes, amount: nat)
      modifies this
      ensures State() == Credit(old(State()), id, account, amount)
      ensures operators == old(operators) && erc20Held == old(erc20Held)
    {
      var balance := Balance(id, account);
      SetBalance(id, account, Add256(balance, amount));
    }

    method BurnUnchecked(account: Address, id: Bytes, amount: nat) returns (r: Result<()>)
      modifies this
      ensures r.Ok? <==> Debit(old(State()), id, account, amount).Ok?
      ensures State() == if r.Ok? then Debit(old(State()), id, account, amount).value else old(State())
      ensures operators == old(operators) && erc20Held == old(erc20Held)
    {
      var accountBalance := Balance(id, account);
      if accountBalance < amount {
        return Revert;
      }
      SetBalance(id, account, accountBalance - amount);
      return Ok(());
    }

    method Mint(sender: Address, account: Address, id: Bytes, amount: nat) returns (r: Result<()>)
      modifies this
      ensures r.Ok? <==> sender in operators
      ensures State() == if r.Ok? then Credit(old(State()), id, account, amount) else old(State())
      ensures operators == old(operators) && erc20Held == old(erc20Held)
    {
      if sender !in operators {
        return Revert;
      }
      MintUnchecked(account, id, amount);
      return Ok(());
    }

    method Burn(sender: Address, account: Address, id: Bytes, amount: nat) returns (r: Result<()>)
      modifies this
      ensures r.Ok? <==> sender in operators && Debit(old(State()), id, account, amount).Ok?
      ensures State() == if r.Ok? then Debit(old(State()), id, account, amount).value else old(State())
      ensures operators == old(operators) && erc20Held == old(erc20Held)
    {
      if sender !in operators {
        return Revert;
      }
      r := BurnUnchecked(account, id, amount);
    }

    /** `deposit`; `paid` is what the token contract answered, and no token ledger holds 2^256 or more. */
    method Deposit(token: Address, amount: nat, receiver: Address, paid: bool) returns (r: Result<()>)
      modifies this
      ensures r.Ok? <==> paid && At(old(erc20Held), token) + amount < TWO_256
      ensures State() == if r.Ok? then Credit(old(State()), AddressToString(token), receiver, amount) else old(State())
      ensures erc20Held == if r.Ok? then old(erc20Held)[token := At(old(erc20Held), token) + amount] else old(erc20Held)
      ensures operators == old(operators)
    {
      var held := At(erc20Held, token);
      if !paid || held + amount >= TWO_256 {
        return Revert;
      }
      var denom := AddressToStringLoop(token);
      erc20Held := erc20Held[token := held + amount];
      MintUnchecked(receiver, denom, amount);
      return Ok(());
    }

    /** `withdraw`; the burn is undone when the token contract does not pay. */
    method Withdraw(sender: Address, token: Address, amount: nat, paid: bool) returns (r: Result<()>)
      modifies this
      ensures r.Ok? <==> && Debit(old(State()), AddressToString(token), sender, amount).Ok?
                         && paid && At(old(erc20Held), token) >= amount
      ensures State() == if r.Ok? then Debit(old(State()), AddressToString(token), sender, amount).value else old(State())
      ensures erc20Held == if r.Ok? then old(erc20Held)[token := At(old(erc20Held), token) - amount] else old(erc20Held)
      ensures operators == old(operators)
    {
      var snapshot := balances;
      var denom := AddressToStringLoop(token);
      r := BurnUnchecked(sender, denom, amount);
      if r.Revert? {
        return;
      }
      var held := At(erc20Held, token);
      if !paid || held < amount {
        balances := snapshot;
        return Revert;
      }
      erc20Held := erc20Held[token := held - amount];
    }
  }

  /** `ICS20TransferBank`: turns the bank's reverts into `false`; the application is an operator. */
  class ICS20TransferBank {
    const bank: ICS20Bank
    const address: Address

    constructor (bank: ICS20Bank, address: Address)
      ensures this.bank == bank && this.address == address
    {
      this.bank := bank;
      this.address := address;
    }

    method TransferFrom(sender: Address, receiver: Address, denom: Bytes, amount: nat) returns (success: bool)
      requires address in bank.operators
      modifies bank
      ensures success <==> BankSpec.TransferFrom(old(bank.State()), sender, receiver, denom, amount).Ok?
      ensures bank.State() == if success then BankSpec.TransferFrom(old(bank.State()), sender, receiver, denom, amount).value
                              else old(bank.State())
      ensures bank.operators == old(bank.operators) && bank.erc20Held == old(bank.erc20Held)
    {
      var r := bank.TransferFrom(address, sender, receiver, denom, amount);
      return r.Ok?;
    }

    method Mint(account: Address, denom: Bytes, amount: nat) returns (success: bool)
      requires address in bank.operators
      modifies bank
      ensures success && bank.State() == Credit(old(bank.State()), denom, account, amount)
      ensures bank.operators == old(bank.operators) && bank.erc20Held == old(bank.erc20Held)
    {
      var r := bank.Mint(address, account, denom, amount);
      return r.Ok?;
    }

    method Burn(account: Address, denom: Bytes, amount: nat) returns (success: bool)
      requires address in bank.operators
      modifies bank
      ensures success <==> Debit(old(bank.State()), denom, account, amount).Ok?
      ensures bank.State() == if success then Debit(old(bank.State()), denom, account, amount).value else old(bank.State())
      ensures bank.operators == old(bank.operators) && bank.erc20Held == old(bank.erc20Held)
    {
      var r := bank.Burn(address, account, denom, amount);
      return r.Ok?;
    }
  }
}

/** test/Mocks.sol, MockERC20: the ERC-20 ledger, with an optional fee taken from what arrives. */
module Erc20 {
  import opened Types
  import opened Sums

  /** `fee(x)` is withheld from a transfer of `x`; MockERC20 itself is the case `fee == (x => 0)`. */
  datatype Coin = Coin(
    balances: map<Address, U256>,
    allowances: map<(Address, Address), U256>,    // (holder, spender)
    fee: nat -> nat)

  function BalanceOf(c: Coin, a: Address): U256 { if a in c.balances then c.balances[a] else 0 }
  function Allowance(c: Coin, holder: Address, spender: Address): U256 {
    if (holder, spender) in c.allowances then c.allowances[(holder, spender)] else 0
  }

  function Received(c: Coin, amount: U256): (received: U256)
    ensures received <= amount
  {
    if c.fee(amount) <= amount then amount - c.fee(amount) else 0
  }

  function Credit(balances: map<Address, U256>, to: Address, amount: U256): Result<map<Address, U256>> {
    var have := if to in balances then balances[to] else 0;
    var _ :- Require(have + amount <= MAX_U256, Overflow);
    Ok(balances[to := have + amount])
  }

  function Mint(c: Coin, to: Address, amount: U256): Result<Coin> {
    var credited :- Credit(c.balances, to, amount);
    Ok(c.(balances := credited))
  }

  function Approve(c: Coin, caller: Address, spender: Address, amount: U256): Coin {
    c.(allowances := c.allowances[(caller, spender) := amount])
  }

  function Transfer(c: Coin, caller: Address, to: Address, amount: U256): Result<Coin> {
    var _ :- Require(BalanceOf(c, caller) >= amount, Underflow);
    var credited :- Credit(c.balances[caller := BalanceOf(c, caller) - amount], to, Received(c, amount));
    Ok(c.(balances := credited))
  }

  function Spent(c: Coin, caller: Address, from: Address, amount: U256): Coin
    requires Allowance(c, from, caller) >= amount
  {
    c.(allowances := c.allowances[(from, caller) := Allowance(c, from, caller) - amount])
  }

  function TransferFrom(c: Coin, caller: Address, from: Address, to: Address, amount: U256): Result<Coin> {
    var _ :- Require(Allowance(c, from, caller) >= amount, AllowanceTooLow);
    Transfer(Spent(c, caller, from, amount), from, to, amount)
  }

  // ---------------------------------------------------------------- supply

  ghost function Supply(c: Coin): nat { Sum(c.balances) }

  /** The state-changing functions, as one request. */
  datatype Op =
    | Minting(to: Address, amount: U256)
    | Approving(spender: Address, amount: U256)
    | Sending(to: Address, amount: U256)
    | SendingFrom(from: Address, to: Address, amount: U256)

  /** A mint that would push the supply past a word is refused, as any ERC-20 with a `totalSupply`
      refuses it. */
  ghost function Do(c: Coin, caller: Address, op: Op): Result<Coin> {
    match op
    case Minting(to, amount) => if Supply(c) + amount <= MAX_U256 then Mint(c, to, amount) else Revert(Overflow)
    case Approving(spender, amount) => Ok(Approve(c, caller, spender, amount))
    case Sending(to, amount) => Transfer(c, caller, to, amount)
    case SendingFrom(from, to, amount) => TransferFrom(c, caller, from, to, amount)
  }

  /** The supply fits a word, as EIP-20's `totalSupply` requires. */
  ghost predicate Bounded(c: Coin) { Supply(c) <= MAX_U256 }

  lemma TransferSupply(c: Coin, caller: Address, to: Address, amount: U256)
    requires Bounded(c)
    ensures Transfer(c, caller, to, amount).Ok? <==> BalanceOf(c, caller) >= amount
    ensures Transfer(c, caller, to, amount).Ok? ==>
              Supply(Transfer(c, caller, to, amount).value) == Supply(c) - (amount - Received(c, amount))
  {
    if BalanceOf(c, caller) >= amount {
      var debited: map<Address, U256> := c.balances[caller := BalanceOf(c, caller) - amount];
      SumUpdate(c.balances, caller, BalanceOf(c, caller) - amount);
      CellWithinSum(c.balances, caller);
      assert Sum(debited) == Supply(c) - amount;
      CellWithinSum(debited, to);
      var have := At(debited, to);
      SumUpdate(debited, to, have + Received(c, amount));
    }
  }

  /** Effect of a transfer on every balance at once; the fee leaves circulation. Under a bounded
      supply it fails exactly when the sender is short: crediting never overflows. */
  lemma TransferEffect(c: Coin, caller: Address, to: Address, amount: U256)
    requires Bounded(c)
    ensures Transfer(c, caller, to, amount).Ok? <==> BalanceOf(c, caller) >= amount
    ensures Transfer(c, caller, to, amount).Ok? ==>
              var d := Transfer(c, caller, to, amount).value;
              && Supply(d) == Supply(c) - (amount - Received(c, amount))
              && d.allowances == c.allowances && d.fee == c.fee
              && BalanceOf(d, to) == BalanceOf(c, to) + Received(c, amount) - (if caller == to then amount else 0)
              && (caller != to ==> BalanceOf(d, caller) == BalanceOf(c, caller) - amount)
              && (forall a: Address :: a != caller && a != to ==> BalanceOf(d, a) == BalanceOf(c, a))
  {
    TransferSupply(c, caller, to, amount);
  }

  lemma SpentEffect(c: Coin, caller: Address, from: Address, amount: U256)
    requires Allowance(c, from, caller) >= amount
    ensures forall h: Address, s: Address ::
              Allowance(Spent(c, caller, from, amount), h, s)
              == Allowance(c, h, s) - (if h == from && s == caller then amount else 0)
  {
  }

  lemma TransferFromEffect(c: Coin, caller: Address, from: Address, to: Address, amount: U256)
    requires Bounded(c)
    ensures TransferFrom(c, caller, from, to, amount).Ok?
       <==> Allowance(c, from, caller) >= amount && BalanceOf(c, from) >= amount
    ensures TransferFrom(c, caller, from, to, amount).Ok? ==>
              var d := TransferFrom(c, caller, from, to, amount).value;
              && Supply(d) == Supply(c) - (amount - Received(c, amount)) && d.fee == c.fee
              && (forall h: Address, s: Address ::
                    Allowance(d, h, s) == Allowance(c, h, s) - (if h == from && s == caller then amount else 0))
              && BalanceOf(d, to) == BalanceOf(c, to) + Received(c, amount) - (if from == to then amount else 0)
              && (from != to ==> BalanceOf(d, from) == BalanceOf(c, from) - amount)
              && (forall a: Address :: a != from && a != to ==> BalanceOf(d, a) == BalanceOf(c, a))
  {
    if Allowance(c, from, caller) >= amount {
      SpentEffect(c, caller, from, amount);
      TransferEffect(Spent(c, caller, from, amount), from, to, amount);
    }
  }

  lemma MintEffect(c: Coin, to: Address, amount: U256)
    requires Supply(c) + amount <= MAX_U256
    ensures Mint(c, to, amount).Ok?
    ensures var d := Mint(c, to, amount).value;
            && Supply(d) == Supply(c) + amount
            && d.allowances == c.allowances && d.fee == c.fee
            && BalanceOf(d, to) == BalanceOf(c, to) + amount
            && (forall a: Address :: a != to ==> BalanceOf(d, a) == BalanceOf(c, a))
  {
    CellWithinSum(c.balances, to);
    SumUpdate(c.balances, to, BalanceOf(c, to) + amount);
  }

  /** What arrives is what is sent net of the fee, and all of it where there is no fee. */
  lemma ArrivesNetOfFee(c: Coin, amount: U256)
    ensures c.fee(amount) <= amount ==> Received(c, amount) + c.fee(amount) == amount
    ensures c.fee(amount) > amount ==> Received(c, amount) == 0
  {
  }

  /** When a request succeeds, with the ledger read directly. */
  lemma RequestsSucceedExactly(c: Coin, caller: Address, op: Op)
    requires Bounded(c)
    ensures Do(c, caller, op).Ok?
       <==> match op
            case Minting(_, amount) => Sum(c.balances) + amount < TWO_256
            case Approving(_, _) => true
            case Sending(_, amount) => At(c.balances, caller) >= amount
            case SendingFrom(from, _, amount) =>
              At(c.balances, from) >= amount && At(c.allowances, (from, caller)) >= amount
  {
    match op {
      case Minting(to, amount) => CellWithinSum(c.balances, to);
      case Approving(_, _) =>
      case Sending(to, amount) => TransferEffect(c, caller, to, amount);
      case SendingFrom(from, to, amount) => TransferFromEffect(c, caller, from, to, amount);
    }
  }

  /** What a request that succeeds does to every allowance. */
  lemma RequestsChangeAllowances(c: Coin, caller: Address, op: Op, h: Address, s: Address)
    requires Bounded(c) && Do(c, caller, op).Ok?
    ensures Allowance(Do(c, caller, op).value, h, s)
         == match op
            case Approving(spender, amount) => if h == caller && s == spender then amount else Allowance(c, h, s)
            case SendingFrom(from, _, amount) =>
              Allowance(c, h, s) - (if h == from && s == caller then amount else 0)
            case _ => Allowance(c, h, s)
  {
    match op {
      case Sending(to, amount) => TransferEffect(c, caller, to, amount);
      case SendingFrom(from, to, amount) => TransferFromEffect(c, caller, from, to, amount);
      case _ =>
    }
  }

  /** What it does to every balance. */
  lemma RequestsChangeBalances(c: Coin, caller: Address, op: Op, a: Address)
    requires Bounded(c) && Do(c, caller, op).Ok?
    ensures var arrives := (amount: U256) => if c.fee(amount) <= amount then amount - c.fee(amount) else 0;
            BalanceOf(Do(c, caller, op).value, a)
            == match op
               case Minting(to, amount) => BalanceOf(c, a) + (if a == to then amount else 0)
               case Approving(_, _) => BalanceOf(c, a)
               case Sending(to, amount) =>
                 BalanceOf(c, a) + (if a == to then arrives(amount) else 0) - (if a == caller then amount else 0)
               case SendingFrom(from, to, amount) =>
                 BalanceOf(c, a) + (if a == to then arrives(amount) else 0) - (if a == from then amount else 0)
  {
    match op {
      case Minting(to, amount) => MintEffect(c, to, amount);
      case Approving(_, _) =>
      case Sending(to, amount) => TransferEffect(c, caller, to, amount);
      case SendingFrom(from, to, amount) => TransferFromEffect(c, caller, from, to, amount);
    }
  }

  /** Conservation: only minting adds to the supply and only the withheld fee leaves it. */
  lemma DoConservesSupply(c: Coin, caller: Address, op: Op)
    requires Bounded(c) && Do(c, caller, op).Ok?
    ensures var d := Do(c, caller, op).value;
            && Bounded(d) && d.fee == c.fee
            && Supply(d) == Supply(c) + match op
                                        case Minting(_, amount) => amount as int
                                        case Approving(_, _) => 0
                                        case Sending(_, amount) => Received(c, amount) - amount
                                        case SendingFrom(_, _, amount) => Received(c, amount) - amount
  {
    match op {
      case Minting(to, amount) => MintEffect(c, to, amount);
      case Approving(_, _) =>
      case Sending(to, amount) => TransferEffect(c, caller, to, amount);
      case SendingFrom(from, to, amount) => TransferFromEffect(c, caller, from, to, amount);
    }
  }

  // ---------------------------------------------------------------- the contract object

  class MockERC20 {
    var balances: map<Address, U256>
    var allowances: map<(Address, Address), U256>

    ghost function Contents(): Coin
      reads this
    {
      Coin(balances, allowances, x => 0)
    }

    constructor ()
      ensures Contents() == Coin(map[], map[], x => 0)
    {
      balances, allowances := map[], map[];
    }

    method ApproveFor(caller: Address, spender: Address, amount: U256)
      modifies this
      ensures Contents() == Approve(old(Contents()), caller, spender, amount)
    {
      allowances := allowances[(caller, spender) := amount];
    }

    method MintTo(to: Address, amount: U256) returns (r: Result<()>)
      modifies this
      ensures match Mint(old(Contents()), to, amount)
              case Ok(d) => Contents() == d && r == Ok(())
              case Revert(e) => Contents() == old(Contents()) && r == Revert(e)
    {
      var have := if to in balances then balances[to] else 0;
      var _ :- Require(have + amount <= MAX_U256, Overflow);
      balances := balances[to := have + amount];
      return Ok(());
    }

    method Send(caller: Address, to: Address, amount: U256) returns (r: Result<()>)
      modifies this
      ensures match Transfer(old(Contents()), caller, to, amount)
              case Ok(d) => Contents() == d && r == Ok(())
              case Revert(e) => Contents() == old(Contents()) && r == Revert(e)
    {
      var before := balances;
      var held := if caller in balances then balances[caller] else 0;
      var _ :- Require(held >= amount, Underflow);
      balances := balances[caller := held - amount];
      var have := if to in balances then balances[to] else 0;
      if have + amount > MAX_U256 {
        balances := before;
        return Revert(Overflow);
      }
      balances := balances[to := have + amount];
      return Ok(());
    }

    /** The allowance is spent before the balance is checked, so a short balance has to undo it. */
    method SendFrom(caller: Address, from: Address, to: Address, amount: U256) returns (r: Result<()>)
      modifies this
      ensures match TransferFrom(old(Contents()), caller, from, to, amount)
              case Ok(d) => Contents() == d && r == Ok(())
              case Revert(e) => Contents() == old(Contents()) && r == Revert(e)
    {
      var before := allowances;
      var allowed := if (from, caller) in allowances then allowances[(from, caller)] else 0;
      var _ :- Require(allowed >= amount, AllowanceTooLow);
      allowances := allowances[(from, caller) := allowed - amount];
      r := Send(from, to, amount);
      if r.Revert? {
        allowances := before;
      }
    }
  }
}

/** Why `createAuction` needs its guard. It records the lot only after the token call, from two readings
    of its balance, so a creation inside that call would have its deposit counted twice. */
module Unguarded {
  import opened Types
  import opened Sums
  import opened Auction
  import opened Frames
  import opened Escrow
  import opened Hostile
  import Codec
  import Erc20

  const SELF: Address := 1
  const OWNER: Address := 2
  const SELLER: Address := 3
  const TOKEN: Address := 9

  function NoFee(x: nat): nat { 0 }

  /** The seller holds and has approved 10; the token behaves, but tells its sender before it moves. */
  const LEDGER: Erc20.Coin := Erc20.Coin(map[SELLER := 10], map[(SELLER, SELF) := 10], NoFee)

  function Genesis(chain: Codec.Chain): World {
    World(chain, SELF, OWNER, ZERO_ADDRESS, [], {}, false, [], [], map[], map[TOKEN := LEDGER])
  }

  const DEPOSIT: Call := Create("lot", ERC20, TOKEN, 0, 5, TOKEN, 10, 1)
  const CREATION: Tx := Tx(0, SELLER, DEPOSIT, true)

  /** Told of the transfer, the seller creates another auction of the same kind. */
  const REENTERING: Reply := Reply([CREATION], [], true, 0)

  lemma LedgerIsSafe()
    ensures CoinSafe(SELF, LEDGER)
  {
    SumUpdate(map[], SELLER, 10);
    assert LEDGER.balances == (map[])[SELLER := 10];
  }

  /** One deposit of 5 on top of what the contract has. */
  lemma FiveArrive(c: Erc20.Coin)
    requires Erc20.Bounded(c) && c.fee == NoFee && Erc20.BalanceOf(c, SELLER) >= 5
             && Erc20.Allowance(c, SELLER, SELF) >= 5
    ensures Erc20.TransferFrom(c, SELF, SELLER, SELF, 5).Ok?
    ensures var d := Erc20.TransferFrom(c, SELF, SELLER, SELF, 5).value;
            && Erc20.Bounded(d) && d.fee == NoFee
            && Erc20.BalanceOf(d, SELF) == Erc20.BalanceOf(c, SELF) + 5
            && Erc20.BalanceOf(d, SELLER) == Erc20.BalanceOf(c, SELLER) - 5
            && Erc20.Allowance(d, SELLER, SELF) == Erc20.Allowance(c, SELLER, SELF) - 5
  {
    Erc20.TransferFromEffect(c, SELF, SELLER, SELF, 5);
  }

  /** The inner creation, run to its end. */
  ghost predicate InnerDone(w: World) {
    && w.self == SELF && |w.auctions| == 1 && Live(w.auctions[0]) && w.auctions[0].lotKind == ERC20
    && w.auctions[0].lotToken == TOKEN && w.auctions[0].lotAmount == 5
    && TOKEN in w.coins && Erc20.Bounded(w.coins[TOKEN]) && w.coins[TOKEN].fee == NoFee
    && Erc20.BalanceOf(w.coins[TOKEN], SELF) == 5
    && Erc20.BalanceOf(w.coins[TOKEN], SELLER) == 5 && Erc20.Allowance(w.coins[TOKEN], SELLER, SELF) == 5
  }

  lemma InnerCommits(chain: Codec.Chain)
    ensures InnerDone(Step(Genesis(chain), CREATION))
  {
    LedgerIsSafe();
    FiveArrive(LEDGER);
    var w := Genesis(chain);
    assert PullLot(w, SELLER, ERC20, TOKEN, 0, 5).Ok?;
  }

  lemma OuterPullCountsBoth(chain: Codec.Chain)
    ensures PullCoin(Genesis(chain), SELLER, TOKEN, 5, REENTERING).Ok?
    ensures var (w1, escrowed) := PullCoin(Genesis(chain), SELLER, TOKEN, 5, REENTERING).value;
            && escrowed == 10 && |w1.auctions| == 1 && Claim(w1.auctions[0], TOKEN) == 5 && w1.self == SELF
            && TOKEN in w1.coins && Erc20.BalanceOf(w1.coins[TOKEN], SELF) == 10
  {
    var w := Genesis(chain);
    assert [CREATION][..0] == [];
    assert Run(w, [CREATION][..0]) == w;
    assert Run(w, [CREATION]) == Step(w, CREATION);
    InnerCommits(chain);
    FiveArrive(Step(w, CREATION).coins[TOKEN]);
  }

  /** Without the guard the claims outgrow the holdings: a deposit of 5 and another of 5 back claims of
      5 and of 10. */
  lemma WithoutTheGuardADepositCountsTwice(chain: Codec.Chain)
    ensures Fresh(Genesis(chain)) && OutsideReply(Genesis(chain), REENTERING)
    ensures CreateInside(Genesis(chain), SELLER, 0, DEPOSIT, REENTERING).Ok?
    ensures var w := CreateInside(Genesis(chain), SELLER, 0, DEPOSIT, REENTERING).value;
            TOKEN in w.coins && Erc20.BalanceOf(w.coins[TOKEN], SELF) == 10 && Owed(w.auctions, TOKEN) == 15
  {
    LedgerIsSafe();
    OuterPullCountsBoth(chain);
    var (w1, escrowed) := PullCoin(Genesis(chain), SELLER, TOKEN, 5, REENTERING).value;
    var outer := Pushed(SELLER, DEPOSIT, escrowed);
    OwedWithOneMore(w1.auctions, outer, TOKEN);
    assert w1.auctions == [] + [w1.auctions[0]];
    OwedWithOneMore([], w1.auctions[0], TOKEN);
  }
}

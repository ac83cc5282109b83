/** The SealedAuction contract as an object: storage overwritten in place, in source order, with the
    rollback a revert performs. Each entry point is proved against its transition in `Auction`. */
module SealedAuctionContract {
  import opened Types
  import opened Auction
  import Codec
  import Erc20
  import Erc721

  /** A call that returned `r` and left `now` behind did what `spec` says, starting from `before`. */
  ghost predicate Committed(spec: Result<World>, r: Result<()>, before: World, now: World) {
    match spec
    case Ok(w) => r == Ok(()) && now == w
    case Revert(e) => r == Revert(e) && now == before
  }

  /** `r` with the reentrancy guard raised. */
  function Guarded(r: Result<World>): Result<World> {
    if r.Ok? then Ok(r.value.(entered := true)) else r
  }

  // The legs of a call neither read nor write the guard.

  lemma PullCoinsIgnoresGuard(w: World, token: Address, from: Address, to: Address, amount: U256)
    ensures PullCoins(w.(entered := true), token, from, to, amount) == Guarded(PullCoins(w, token, from, to, amount))
  {
  }

  lemma ReleaseLotIgnoresGuard(w: World, id: nat, a: Auction, to: Address)
    ensures ReleaseLot(w.(entered := true), id, a, to) == Guarded(ReleaseLot(w, id, a, to))
  {
  }

  lemma SellIgnoresGuard(w: World, id: nat, winner: Address, price: U256)
    requires id < |w.auctions|
    ensures Sell(w.(entered := true), id, winner, price) == Guarded(Sell(w, id, winner, price))
  {
    var sold := w.auctions[id].(phase := Settled, winner := winner, clearingPrice := price);
    var marked := SetAuction(w, id, sold);
    PullCoinsIgnoresGuard(marked, sold.payToken, winner, sold.seller, price);
    var paid := PullCoins(marked, sold.payToken, winner, sold.seller, price);
    if paid.Ok? {
      ReleaseLotIgnoresGuard(paid.value, id, sold, winner);
    }
  }

  lemma SendHomeIgnoresGuard(w: World, id: nat)
    requires id < |w.auctions|
    ensures SendHome(w.(entered := true), id) == Guarded(SendHome(w, id))
  {
    var a := w.auctions[id];
    ReleaseLotIgnoresGuard(SetAuction(w, id, a.(phase := Cancelled)), id, a, a.seller);
  }

  class SealedAuction {
    const chain: Codec.Chain
    const self: Address
    const owner: Address
    var teeAddress: Address
    var auctions: seq<Auction>
    var bidCommitments: set<Commitment>
    var entered: bool
    var events: seq<Event>
    var outbox: seq<Sent>
    var nfts: map<Address, Erc721.Nft>
    var coins: map<Address, Erc20.Coin>

    function State(): World
      reads this
    {
      World(chain, self, owner, teeAddress, auctions, bidCommitments, entered, events, outbox, nfts, coins)
    }

    constructor (chain: Codec.Chain, self: Address, deployer: Address, nfts: map<Address, Erc721.Nft>,
        coins: map<Address, Erc20.Coin>)
      ensures State() == World(chain, self, deployer, ZERO_ADDRESS, [], {}, false, [], [], nfts, coins)
    {
      this.chain, this.self, this.owner, this.nfts, this.coins := chain, self, deployer, nfts, coins;
      teeAddress, auctions, bidCommitments, entered, events, outbox := ZERO_ADDRESS, [], {}, false, [], [];
    }

    /** What the EVM does when a call reverts. */
    method Rollback(saved: World)
      requires saved.chain == chain && saved.self == self && saved.owner == owner
      modifies this
      ensures State() == saved
    {
      teeAddress, auctions, bidCommitments := saved.teeAddress, saved.auctions, saved.commitments;
      entered, events, outbox := saved.entered, saved.events, saved.outbox;
      nfts, coins := saved.nfts, saved.coins;
    }

    // ---------------------------------------------------------------- token calls

    method CallNft(token: Address, from: Address, to: Address, id: U256) returns (r: Result<()>)
      modifies this`nfts
      ensures Committed(MoveNft(old(State()), token, from, to, id), r, old(State()), State())
    {
      var _ :- Require(token in nfts, NoCode);
      var moved :- Erc721.TransferFrom(nfts[token], self, from, to, id);
      nfts := nfts[token := moved];
      return Ok(());
    }

    method CallTransfer(token: Address, to: Address, amount: U256) returns (r: Result<()>)
      modifies this`coins
      ensures Committed(SendCoins(old(State()), token, to, amount), r, old(State()), State())
    {
      var _ :- Require(token in coins, NoCode);
      var moved :- Erc20.Transfer(coins[token], self, to, amount);
      coins := coins[token := moved];
      return Ok(());
    }

    method CallTransferFrom(token: Address, from: Address, to: Address, amount: U256) returns (r: Result<()>)
      modifies this`coins
      ensures Committed(PullCoins(old(State()), token, from, to, amount), r, old(State()), State())
    {
      var _ :- Require(token in coins, NoCode);
      var moved :- Erc20.TransferFrom(coins[token], self, from, to, amount);
      coins := coins[token := moved];
      return Ok(());
    }

    /** `_pullLot`. On a revert the caller rolls back. */
    method Pull(caller: Address, kind: LotKind, token: Address, id: U256, amount: U256) returns (r: Result<U256>)
      modifies this`nfts, this`coins
      ensures match PullLot(old(State()), caller, kind, token, id, amount)
              case Ok((w, escrowed)) => r == Ok(escrowed) && State() == w
              case Revert(e) => r == Revert(e)
    {
      if kind == ERC721 {
        var _ :- CallNft(token, caller, self, id);
        var holder :- Erc721.OwnerOf(nfts[token], id);
        var _ :- Require(holder == self, LotEscrowFailed);
        return Ok(1);
      }
      var _ :- Require(amount > 0, ZeroLotAmount);
      var _ :- Require(token in coins, NoCode);
      var before := Erc20.BalanceOf(coins[token], self);
      var _ :- CallTransferFrom(token, caller, self, amount);
      var after := Erc20.BalanceOf(coins[token], self);
      var _ :- Require(after >= before, Underflow);
      var _ :- Require(after - before > 0, LotEscrowFailed);
      return Ok(after - before);
    }

    /** `_releaseLot`. On a revert the caller rolls back. */
    method Release(id: nat, a: Auction, to: Address) returns (r: Result<()>)
      modifies this`nfts, this`coins, this`events
      ensures match ReleaseLot(old(State()), id, a, to)
              case Ok(w) => r == Ok(()) && State() == w
              case Revert(e) => r == Revert(e)
    {
      if a.lotKind == ERC721 {
        var _ :- CallNft(a.lotToken, self, to, a.lotTokenId);
      } else {
        var _ :- CallTransfer(a.lotToken, to, a.lotAmount);
      }
      events := events + [LotReleased(id, to)];
      return Ok(());
    }

    // ---------------------------------------------------------------- entry points

    method CreateBody(caller: Address, now: U64, lot: string, kind: LotKind, lotToken: Address, lotTokenId: U256,
                      lotAmount: U256, payToken: Address, deadline: U64, reservePrice: U256) returns (r: Result<()>)
      requires entered
      modifies this`auctions, this`nfts, this`coins, this`events
      ensures match CreateAuction(old(State()).(entered := false), caller, now, lot, kind, lotToken, lotTokenId,
                                  lotAmount, payToken, deadline, reservePrice)
              case Ok(w) => r == Ok(()) && State() == w.(entered := true)
              case Revert(e) => r == Revert(e)
    {
      var _ :- Require(payToken != ZERO_ADDRESS, ZeroPayToken);
      var _ :- Require(lotToken != ZERO_ADDRESS, ZeroLotToken);
      var _ :- Require(deadline > now, DeadlineInPast);
      var _ :- Require(|lot| > 0, LotRequired);
      var escrowed :- Pull(caller, kind, lotToken, lotTokenId, lotAmount);
      var _ :- Require(|auctions| < TWO_64, ArrayTooLong);
      var id := |auctions|;
      auctions := auctions + [Auction(caller, lot, kind, lotToken, lotTokenId, escrowed, payToken, deadline,
                                      reservePrice, Open, ZERO_ADDRESS, 0, 0)];
      events := events + [AuctionCreated(id, caller), LotEscrowed(id, lotToken, lotTokenId, escrowed)];
      return Ok(());
    }

    method Create(caller: Address, now: U64, lot: string, kind: LotKind, lotToken: Address, lotTokenId: U256,
                  lotAmount: U256, payToken: Address, deadline: U64, reservePrice: U256) returns (r: Result<()>)
      modifies this
      ensures Committed(CreateAuction(old(State()), caller, now, lot, kind, lotToken, lotTokenId, lotAmount,
                                      payToken, deadline, reservePrice), r, old(State()), State())
    {
      var saved := State();
      var _ :- Require(!entered, Reentrant);
      entered := true;
      r := CreateBody(caller, now, lot, kind, lotToken, lotTokenId, lotAmount, payToken, deadline, reservePrice);
      if r.Revert? {
        Rollback(saved);
      }
      entered := false;
    }

    method Bid(caller: Address, now: U64, id: U256, ciphertext: Bytes, routed: bool) returns (r: Result<()>)
      modifies this
      ensures Committed(PlaceBid(old(State()), caller, now, id, ciphertext, routed), r, old(State()), State())
    {
      var saved := State();
      var _ :- Require(id < |auctions|, NoSuchAuction);
      var _ :- Require(auctions[id].phase == Open, AuctionNotOpen);
      var _ :- Require(now < auctions[id].deadline, BiddingClosed);
      var _ :- Require(|ciphertext| > 0, EmptyCiphertext);
      var _ :- Require(routed, NotRouted);
      outbox := outbox + [Sent(now, PlaceBidMessage(id, caller, ciphertext))];
      var commitment := Commitment(id, caller, ciphertext);
      bidCommitments := bidCommitments + {commitment};
      if auctions[id].bidCount == MAX_U256 {
        Rollback(saved);
        return Revert(Overflow);
      }
      auctions := auctions[id := auctions[id].(bidCount := auctions[id].bidCount + 1)];
      events := events + [BidPlaced(id, caller, commitment)];
      return Ok(());
    }

    method Close(now: U64, id: U256, routed: bool) returns (r: Result<()>)
      modifies this
      ensures Committed(CloseAuction(old(State()), now, id, routed), r, old(State()), State())
    {
      var saved := State();
      var _ :- Require(id < |auctions|, NoSuchAuction);
      var _ :- Require(auctions[id].phase == Open || auctions[id].phase == Closing, AuctionNotClosable);
      var _ :- Require(now >= auctions[id].deadline, BiddingStillOpen);
      auctions := auctions[id := auctions[id].(phase := Closing)];
      if !routed {
        Rollback(saved);
        return Revert(NotRouted);
      }
      outbox := outbox + [Sent(now, CloseMessage(id, self, auctions[id].reservePrice, auctions[id].deadline))];
      events := events + [AuctionClosing(id)];
      return Ok(());
    }

    method ReturnLot(id: nat) returns (r: Result<()>)
      requires id < |auctions|
      modifies this`auctions, this`nfts, this`coins, this`events
      ensures match SendHome(old(State()), id)
              case Ok(w) => r == Ok(()) && State() == w
              case Revert(e) => r == Revert(e)
    {
      var a := auctions[id];
      auctions := auctions[id := a.(phase := Cancelled)];
      var _ :- Release(id, a, a.seller);
      events := events + [AuctionCancelled(id)];
      return Ok(());
    }

    method CancelBody(caller: Address, id: U256) returns (r: Result<()>)
      requires entered
      modifies this`auctions, this`nfts, this`coins, this`events
      ensures match CancelAuction(old(State()).(entered := false), caller, id)
              case Ok(w) => r == Ok(()) && State() == w.(entered := true)
              case Revert(e) => r == Revert(e)
    {
      var _ :- Require(id < |auctions|, NoSuchAuction);
      var a := auctions[id];
      var _ :- Require(caller == a.seller, NotSeller);
      var _ :- Require(a.phase == Open, AuctionNotOpen);
      var _ :- Require(a.bidCount == 0, BidsExist);
      SendHomeIgnoresGuard(State().(entered := false), id);
      r := ReturnLot(id);
    }

    method Cancel(caller: Address, id: U256) returns (r: Result<()>)
      modifies this
      ensures Committed(CancelAuction(old(State()), caller, id), r, old(State()), State())
    {
      var saved := State();
      var _ :- Require(!entered, Reentrant);
      entered := true;
      r := CancelBody(caller, id);
      if r.Revert? {
        Rollback(saved);
      }
      entered := false;
    }

    /** The terminal record is written before any token moves, then the payment leg, then the lot leg. */
    method SellLot(id: nat, winner: Address, price: U256) returns (r: Result<()>)
      requires id < |auctions|
      modifies this`auctions, this`nfts, this`coins, this`events
      ensures match Sell(old(State()), id, winner, price)
              case Ok(w) => r == Ok(()) && State() == w
              case Revert(e) => r == Revert(e)
    {
      var a := auctions[id].(phase := Settled, winner := winner, clearingPrice := price);
      auctions := auctions[id := a];
      var _ :- CallTransferFrom(a.payToken, winner, a.seller, price);
      var _ :- Release(id, a, winner);
      events := events + [AuctionSettled(id, winner, price)];
      return Ok(());
    }

    /** From the decoded result on. On a revert the caller rolls back. */
    method Finalize(result: Codec.CloseResult) returns (r: Result<()>)
      requires entered
      modifies this`auctions, this`nfts, this`coins, this`events
      ensures match ApplyResult(old(State()).(entered := false), result)
              case Ok(w) => r == Ok(()) && State() == w.(entered := true)
              case Revert(e) => r == Revert(e)
    {
      var _ :- Require(result.auctionId < |auctions|, NoSuchAuction);
      var _ :- Require(auctions[result.auctionId].phase == Closing, AuctionNotClosing);
      if result.winner == ZERO_ADDRESS {
        SendHomeIgnoresGuard(State().(entered := false), result.auctionId);
        r := ReturnLot(result.auctionId);
      } else {
        var _ :- Require(result.clearingPrice >= auctions[result.auctionId].reservePrice, BelowReserve);
        SellIgnoresGuard(State().(entered := false), result.auctionId, result.winner, result.clearingPrice);
        r := SellLot(result.auctionId, result.winner, result.clearingPrice);
      }
    }

    method SettleBody(result: Codec.ActionResult, sig: Bytes) returns (r: Result<()>)
      requires entered
      modifies this`auctions, this`nfts, this`coins, this`events
      ensures match Settle(old(State()).(entered := false), result, sig)
              case Ok(w) => r == Ok(()) && State() == w.(entered := true)
              case Revert(e) => r == Revert(e)
    {
      var _ :- Require(teeAddress != ZERO_ADDRESS, TeeNotSet);
      var _ :- Require(result.status == 1, TeeReportedFailure);
      var signer :- Codec.SignerOf(chain, result, sig);
      var _ :- Require(signer == teeAddress, BadSignature);
      var decoded :- Codec.UnpackResult(result.data);
      var _ :- Require(decoded.contractAddr == self, NotForThisContract);
      r := Finalize(decoded);
    }

    method SettleResult(result: Codec.ActionResult, sig: Bytes) returns (r: Result<()>)
      modifies this
      ensures Committed(Settle(old(State()), result, sig), r, old(State()), State())
    {
      var saved := State();
      var _ :- Require(!entered, Reentrant);
      entered := true;
      r := SettleBody(result, sig);
      if r.Revert? {
        Rollback(saved);
      }
      entered := false;
    }

    method RegisterTee(caller: Address, tee: Address) returns (r: Result<()>)
      modifies this
      ensures Committed(SetTeeAddress(old(State()), caller, tee), r, old(State()), State())
    {
      var _ :- Require(caller == owner, NotOwner);
      var _ :- Require(tee != ZERO_ADDRESS, ZeroTeeAddress);
      teeAddress := tee;
      events := events + [TeeAddressSet(tee)];
      return Ok(());
    }
  }
}

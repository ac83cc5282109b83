/** contracts/InstructionSender.sol, SealedAuction: the multi-auction state machine as transitions on
    the contract's storage together with the token ledgers it calls. A transition that reverts
    yields no new world, so nothing it did survives. */
module Auction {
  import opened Types
  import Codec
  import Erc20
  import Erc721

  datatype LotKind = ERC721 | ERC20
  datatype Phase = Open | Closing | Settled | Cancelled    // the enum's `None` is never stored

  datatype Auction = Auction(
    seller: Address,
    lot: string,
    lotKind: LotKind,
    lotToken: Address,
    lotTokenId: U256,          // ERC-721 only
    lotAmount: U256,           // what arrived in escrow
    payToken: Address,
    deadline: U64,
    reservePrice: U256,
    phase: Phase,
    winner: Address,           // zero until settled
    clearingPrice: U256,
    bidCount: U256)

  /** The lot is in escrow. */
  predicate Live(a: Auction) { a.phase == Open || a.phase == Closing }

  datatype Message =
    | PlaceBidMessage(auctionId: U256, bidder: Address, ciphertext: Bytes)
    | CloseMessage(auctionId: U256, contractAddr: Address, reservePrice: U256, deadline: U64)

  /** An instruction as the TEE receives it: its timestamp and its ABI message. */
  datatype Sent = Sent(timestamp: U64, message: Message)

  /** keccak256(abi.encode(auctionId, bidder, keccak256(ciphertext))), as a free constructor. */
  datatype Commitment = Commitment(auctionId: U256, bidder: Address, ciphertext: Bytes)

  datatype Event =
    | AuctionCreated(auctionId: nat, seller: Address)
    | LotEscrowed(auctionId: nat, lotToken: Address, lotTokenId: U256, lotAmount: U256)
    | LotReleased(auctionId: nat, to: Address)
    | BidPlaced(auctionId: nat, bidder: Address, commitment: Commitment)
    | AuctionClosing(auctionId: nat)
    | AuctionSettled(auctionId: nat, winner: Address, clearingPrice: U256)
    | AuctionCancelled(auctionId: nat)
    | TeeAddressSet(teeAddress: Address)

  datatype World = World(
    chain: Codec.Chain,                        // chain id, keccak256 and ecrecover
    self: Address,                             // address(this)
    owner: Address,
    teeAddress: Address,
    auctions: seq<Auction>,
    commitments: set<Commitment>,
    entered: bool,
    events: seq<Event>,
    outbox: seq<Sent>,                         // instructions routed through the registry
    nfts: map<Address, Erc721.Nft>,            // every ERC-721 contract on the chain
    coins: map<Address, Erc20.Coin>)           // every ERC-20 contract on the chain

  // ---------------------------------------------------------------- calls the contract makes

  // A call to an address that holds no contract of the expected kind reverts: there is no code, the
  // function is missing, or the returned data does not decode.

  function MoveNft(w: World, token: Address, from: Address, to: Address, id: U256): Result<World> {
    var _ :- Require(token in w.nfts, NoCode);
    var n :- Erc721.TransferFrom(w.nfts[token], w.self, from, to, id);
    Ok(w.(nfts := w.nfts[token := n]))
  }

  function SendCoins(w: World, token: Address, to: Address, amount: U256): Result<World> {
    var _ :- Require(token in w.coins, NoCode);
    var c :- Erc20.Transfer(w.coins[token], w.self, to, amount);
    Ok(w.(coins := w.coins[token := c]))
  }

  function PullCoins(w: World, token: Address, from: Address, to: Address, amount: U256): Result<World> {
    var _ :- Require(token in w.coins, NoCode);
    var c :- Erc20.TransferFrom(w.coins[token], w.self, from, to, amount);
    Ok(w.(coins := w.coins[token := c]))
  }

  /** `_pullLot`: escrow the lot, and report how much of it actually arrived. */
  function PullLot(w: World, caller: Address, kind: LotKind, token: Address, id: U256, amount: U256)
    : Result<(World, U256)>
  {
    if kind == ERC721 then
      var w1 :- MoveNft(w, token, caller, w.self, id);
      var holder :- Erc721.OwnerOf(w1.nfts[token], id);
      var _ :- Require(holder == w.self, LotEscrowFailed);
      Ok((w1, 1))
    else
      var _ :- Require(amount > 0, ZeroLotAmount);
      var _ :- Require(token in w.coins, NoCode);
      var before := Erc20.BalanceOf(w.coins[token], w.self);
      var w1 :- PullCoins(w, token, caller, w.self, amount);
      var after := Erc20.BalanceOf(w1.coins[token], w.self);
      var _ :- Require(after >= before, Underflow);
      var _ :- Require(after - before > 0, LotEscrowFailed);
      Ok((w1, after - before))
  }

  /** `_releaseLot`. */
  function ReleaseLot(w: World, id: nat, a: Auction, to: Address): Result<World> {
    var w1 :- if a.lotKind == ERC721 then MoveNft(w, a.lotToken, w.self, to, a.lotTokenId)
              else SendCoins(w, a.lotToken, to, a.lotAmount);
    Ok(w1.(events := w1.events + [LotReleased(id, to)]))
  }

  /** `_sendInstruction`; `routed` is whether the extension id is set and the registries accept. */
  function SendInstruction(w: World, now: U64, message: Message, routed: bool): Result<World> {
    var _ :- Require(routed, NotRouted);
    Ok(w.(outbox := w.outbox + [Sent(now, message)]))
  }

  function SetAuction(w: World, id: nat, a: Auction): World
    requires id < |w.auctions|
  {
    w.(auctions := w.auctions[id := a])
  }

  function Emit(w: World, e: Event): World { w.(events := w.events + [e]) }

  // ---------------------------------------------------------------- external entry points

  function CreateAuction(w: World, caller: Address, now: U64, lot: string, kind: LotKind, lotToken: Address,
                         lotTokenId: U256, lotAmount: U256, payToken: Address, deadline: U64, reservePrice: U256)
    : Result<World>
  {
    var _ :- Require(!w.entered, Reentrant);
    var _ :- Require(payToken != ZERO_ADDRESS, ZeroPayToken);
    var _ :- Require(lotToken != ZERO_ADDRESS, ZeroLotToken);
    var _ :- Require(deadline > now, DeadlineInPast);
    var _ :- Require(|lot| > 0, LotRequired);
    var (w1, escrowed) :- PullLot(w, caller, kind, lotToken, lotTokenId, lotAmount);
    var _ :- Require(|w.auctions| < TWO_64, ArrayTooLong);
    var id := |w.auctions|;
    var a := Auction(caller, lot, kind, lotToken, lotTokenId, escrowed, payToken, deadline, reservePrice,
                     Open, ZERO_ADDRESS, 0, 0);
    Ok(w1.(auctions := w1.auctions + [a],
           events := w1.events + [AuctionCreated(id, caller), LotEscrowed(id, lotToken, lotTokenId, escrowed)]))
  }

  function PlaceBid(w: World, caller: Address, now: U64, id: U256, ciphertext: Bytes, routed: bool): Result<World> {
    var _ :- Require(id < |w.auctions|, NoSuchAuction);
    var a := w.auctions[id];
    var _ :- Require(a.phase == Open, AuctionNotOpen);
    var _ :- Require(now < a.deadline, BiddingClosed);
    var _ :- Require(|ciphertext| > 0, EmptyCiphertext);
    var w1 :- SendInstruction(w, now, PlaceBidMessage(id, caller, ciphertext), routed);
    var commitment := Commitment(id, caller, ciphertext);
    var _ :- Require(a.bidCount < MAX_U256, Overflow);
    var w2 := SetAuction(w1.(commitments := w1.commitments + {commitment}), id, a.(bidCount := a.bidCount + 1));
    Ok(Emit(w2, BidPlaced(id, caller, commitment)))
  }

  function CloseAuction(w: World, now: U64, id: U256, routed: bool): Result<World> {
    var _ :- Require(id < |w.auctions|, NoSuchAuction);
    var a := w.auctions[id];
    var _ :- Require(a.phase == Open || a.phase == Closing, AuctionNotClosable);
    var _ :- Require(now >= a.deadline, BiddingStillOpen);
    var w1 := SetAuction(w, id, a.(phase := Closing));
    var w2 :- SendInstruction(w1, now, CloseMessage(id, w.self, a.reservePrice, a.deadline), routed);
    Ok(Emit(w2, AuctionClosing(id)))
  }

  /** Cancelled: the lot returns to the seller. */
  function SendHome(w: World, id: nat): Result<World>
    requires id < |w.auctions|
  {
    var a := w.auctions[id];
    var w1 :- ReleaseLot(SetAuction(w, id, a.(phase := Cancelled)), id, a, a.seller);
    Ok(Emit(w1, AuctionCancelled(id)))
  }

  function CancelAuction(w: World, caller: Address, id: U256): Result<World> {
    var _ :- Require(!w.entered, Reentrant);
    var _ :- Require(id < |w.auctions|, NoSuchAuction);
    var a := w.auctions[id];
    var _ :- Require(caller == a.seller, NotSeller);
    var _ :- Require(a.phase == Open, AuctionNotOpen);
    var _ :- Require(a.bidCount == 0, BidsExist);
    SendHome(w, id)
  }

  /** Settled: the price goes to the seller and the lot to the winner, or neither moves. */
  function Sell(w: World, id: nat, winner: Address, price: U256): Result<World>
    requires id < |w.auctions|
  {
    var sold := w.auctions[id].(phase := Settled, winner := winner, clearingPrice := price);
    var w1 :- PullCoins(SetAuction(w, id, sold), sold.payToken, winner, sold.seller, price);
    var w2 :- ReleaseLot(w1, id, sold, winner);
    Ok(Emit(w2, AuctionSettled(id, winner, price)))
  }

  /** The part of `settle` that runs once the result is authenticated and decoded. */
  function ApplyResult(w: World, result: Codec.CloseResult): Result<World> {
    var id := result.auctionId;
    var _ :- Require(id < |w.auctions|, NoSuchAuction);
    var a := w.auctions[id];
    var _ :- Require(a.phase == Closing, AuctionNotClosing);
    if result.winner == ZERO_ADDRESS then
      SendHome(w, id)
    else
      var _ :- Require(result.clearingPrice >= a.reservePrice, BelowReserve);
      Sell(w, id, result.winner, result.clearingPrice)
  }

  function Settle(w: World, r: Codec.ActionResult, sig: Bytes): Result<World> {
    var _ :- Require(!w.entered, Reentrant);
    var _ :- Require(w.teeAddress != ZERO_ADDRESS, TeeNotSet);
    var _ :- Require(r.status == 1, TeeReportedFailure);
    var signer :- Codec.SignerOf(w.chain, r, sig);
    var _ :- Require(signer == w.teeAddress, BadSignature);
    var result :- Codec.UnpackResult(r.data);
    var _ :- Require(result.contractAddr == w.self, NotForThisContract);
    ApplyResult(w, result)
  }

  function SetTeeAddress(w: World, caller: Address, tee: Address): Result<World> {
    var _ :- Require(caller == w.owner, NotOwner);
    var _ :- Require(tee != ZERO_ADDRESS, ZeroTeeAddress);
    Ok(Emit(w.(teeAddress := tee), TeeAddressSet(tee)))
  }

  // ---------------------------------------------------------------- the chain as a whole

  /** A transaction by an outside account: an entry point of the auction, or any state-changing
      function of any token. */
  datatype Call =
    | Create(lot: string, kind: LotKind, lotToken: Address, lotTokenId: U256, lotAmount: U256,
             payToken: Address, deadline: U64, reservePrice: U256)
    | Bid(auctionId: U256, ciphertext: Bytes)
    | Close(auctionId: U256)
    | Cancel(auctionId: U256)
    | SettleWith(result: Codec.ActionResult, sig: Bytes)
    | SetTee(tee: Address)
    | OnNft(token: Address, nftOp: Erc721.Op)
    | OnCoin(token: Address, coinOp: Erc20.Op)

  datatype Tx = Tx(now: U64, caller: Address, call: Call, routed: bool)

  function WithNft(w: World, token: Address, n: Erc721.Nft): World { w.(nfts := w.nfts[token := n]) }
  function WithCoin(w: World, token: Address, c: Erc20.Coin): World { w.(coins := w.coins[token := c]) }

  /** A token call by an outside account. */
  function CallNft(w: World, caller: Address, token: Address, op: Erc721.Op): Result<World> {
    var _ :- Require(token in w.nfts, NoCode);
    var n :- Erc721.Do(w.nfts[token], caller, op);
    Ok(WithNft(w, token, n))
  }

  ghost function CallCoin(w: World, caller: Address, token: Address, op: Erc20.Op): Result<World> {
    var _ :- Require(token in w.coins, NoCode);
    var c :- Erc20.Do(w.coins[token], caller, op);
    Ok(WithCoin(w, token, c))
  }

  ghost function Apply(w: World, tx: Tx): Result<World> {
    match tx.call
    case Create(lot, kind, lotToken, lotTokenId, lotAmount, payToken, deadline, reservePrice) =>
      CreateAuction(w, tx.caller, tx.now, lot, kind, lotToken, lotTokenId, lotAmount, payToken, deadline, reservePrice)
    case Bid(id, ciphertext) => PlaceBid(w, tx.caller, tx.now, id, ciphertext, tx.routed)
    case Close(id) => CloseAuction(w, tx.now, id, tx.routed)
    case Cancel(id) => CancelAuction(w, tx.caller, id)
    case SettleWith(result, sig) => Settle(w, result, sig)
    case SetTee(tee) => SetTeeAddress(w, tx.caller, tee)
    case OnNft(token, op) => CallNft(w, tx.caller, token, op)
    case OnCoin(token, op) => CallCoin(w, tx.caller, token, op)
  }

  /** A transaction commits, or leaves the whole world as it was. */
  ghost function Step(w: World, tx: Tx): World {
    var r := Apply(w, tx);
    if r.Ok? then r.value else w
  }

  ghost function Run(w: World, txs: seq<Tx>): World {
    if txs == [] then w else Step(Run(w, txs[..|txs| - 1]), txs[|txs| - 1])
  }

  /** No transaction originates from the auction contract or from the zero address. */
  predicate Outside(w: World, tx: Tx) { tx.caller != w.self && tx.caller != ZERO_ADDRESS }

  predicate OutsideRun(w: World, txs: seq<Tx>) { forall tx :: tx in txs ==> Outside(w, tx) }
}

/** What each committed call writes besides the tokens: the auction records, the event log and the
    instruction queue, given exactly. Later modules reason from these facts alone. */
module Frames {
  import opened Types
  import opened Auction
  import Codec

  /** `w1` is `w` except for the token ledgers. */
  ghost predicate OnlyTokens(w: World, w1: World) {
    w1 == w.(nfts := w1.nfts, coins := w1.coins)
  }

  lemma PullLotFrame(w: World, caller: Address, kind: LotKind, token: Address, id: U256, amount: U256)
    ensures PullLot(w, caller, kind, token, id, amount).Ok? ==>
              var (w1, escrowed) := PullLot(w, caller, kind, token, id, amount).value;
              OnlyTokens(w, w1)
  {
  }

  lemma ReleaseLotFrame(w: World, id: nat, a: Auction, to: Address)
    ensures ReleaseLot(w, id, a, to).Ok? ==>
              var w1 := ReleaseLot(w, id, a, to).value;
              OnlyTokens(Emit(w, LotReleased(id, to)), w1)
  {
  }

  lemma PullCoinsFrame(w: World, token: Address, from: Address, to: Address, amount: U256)
    ensures PullCoins(w, token, from, to, amount).Ok? ==>
              OnlyTokens(w, PullCoins(w, token, from, to, amount).value)
  {
  }

  /** The record a creation stores: what the seller asked for, open, without winner or bids. */
  predicate Opened(a: Auction, caller: Address, now: U64, c: Call)
    requires c.Create?
  {
    && a.seller == caller && a.lot == c.lot && a.lotKind == c.kind && a.lotToken == c.lotToken
    && a.lotTokenId == c.lotTokenId && a.payToken == c.payToken && a.deadline == c.deadline && now < a.deadline
    && a.reservePrice == c.reservePrice && a.phase == Open && a.winner == ZERO_ADDRESS
    && a.clearingPrice == 0 && a.bidCount == 0
  }

  ghost predicate CreateEffect(w: World, caller: Address, now: U64, c: Call, w1: World)
    requires c.Create?
  {
    var id := |w.auctions|;
    && id < TWO_64 && |w1.auctions| == id + 1 && Opened(w1.auctions[id], caller, now, c)
    && OnlyTokens(w.(auctions := w.auctions + [w1.auctions[id]],
                     events := w.events + [AuctionCreated(id, caller),
                                           LotEscrowed(id, c.lotToken, c.lotTokenId, w1.auctions[id].lotAmount)]), w1)
  }

  ghost predicate BidEffect(w: World, caller: Address, now: U64, id: U256, ciphertext: Bytes, w1: World) {
    && id < |w.auctions| && w.auctions[id].phase == Open && now < w.auctions[id].deadline && |ciphertext| > 0
    && w.auctions[id].bidCount < MAX_U256
    && w1 == w.(auctions := w.auctions[id := w.auctions[id].(bidCount := w.auctions[id].bidCount + 1)],
                commitments := w.commitments + {Commitment(id, caller, ciphertext)},
                events := w.events + [BidPlaced(id, caller, Commitment(id, caller, ciphertext))],
                outbox := w.outbox + [Sent(now, PlaceBidMessage(id, caller, ciphertext))])
  }

  function CloseOf(w: World, id: U256): Message
    requires id < |w.auctions|
  {
    CloseMessage(id, w.self, w.auctions[id].reservePrice, w.auctions[id].deadline)
  }

  ghost predicate CloseEffect(w: World, now: U64, id: U256, w1: World) {
    && id < |w.auctions| && Live(w.auctions[id]) && now >= w.auctions[id].deadline
    && w1 == w.(auctions := w.auctions[id := w.auctions[id].(phase := Closing)],
                events := w.events + [AuctionClosing(id)],
                outbox := w.outbox + [Sent(now, CloseOf(w, id))])
  }

  function Cancelling(w: World, id: nat): World
    requires id < |w.auctions|
  {
    var a := w.auctions[id];
    w.(auctions := w.auctions[id := a.(phase := Cancelled)],
       events := w.events + [LotReleased(id, a.seller), AuctionCancelled(id)])
  }

  function Selling(w: World, id: nat, winner: Address, price: U256): World
    requires id < |w.auctions|
  {
    w.(auctions := w.auctions[id := w.auctions[id].(phase := Settled, winner := winner, clearingPrice := price)],
       events := w.events + [LotReleased(id, winner), AuctionSettled(id, winner, price)])
  }

  ghost predicate CancelEffect(w: World, caller: Address, id: U256, w1: World) {
    && id < |w.auctions| && w.auctions[id].phase == Open && w.auctions[id].bidCount == 0
    && caller == w.auctions[id].seller && OnlyTokens(Cancelling(w, id), w1)
  }

  ghost predicate ResultShape(w: World, result: Codec.CloseResult, w1: World) {
    var id := result.auctionId;
    && id < |w.auctions| && w.auctions[id].phase == Closing
    && if result.winner == ZERO_ADDRESS then OnlyTokens(Cancelling(w, id), w1)
       else result.clearingPrice >= w.auctions[id].reservePrice
            && OnlyTokens(Selling(w, id, result.winner, result.clearingPrice), w1)
  }

  /** Effect of a committed call on the auctions, the log and the queue. */
  ghost predicate Shape(w: World, tx: Tx, w1: World) {
    match tx.call
    case Create(_, _, _, _, _, _, _, _) => CreateEffect(w, tx.caller, tx.now, tx.call, w1)
    case Bid(id, ciphertext) => BidEffect(w, tx.caller, tx.now, id, ciphertext, w1)
    case Close(id) => CloseEffect(w, tx.now, id, w1)
    case Cancel(id) => CancelEffect(w, tx.caller, id, w1)
    case SettleWith(_, _) => exists result :: ResultShape(w, result, w1)    // SettleShape says which result
    case SetTee(tee) => tx.caller == w.owner && tee != ZERO_ADDRESS
                        && w1 == Emit(w.(teeAddress := tee), TeeAddressSet(tee))
    case OnNft(_, _) => OnlyTokens(w, w1)
    case OnCoin(_, _) => OnlyTokens(w, w1)
  }

  lemma CreateShape(w: World, tx: Tx)
    requires tx.call.Create?
    ensures Apply(w, tx).Ok? ==> Shape(w, tx, Apply(w, tx).value)
  {
    var c := tx.call;
    PullLotFrame(w, tx.caller, c.kind, c.lotToken, c.lotTokenId, c.lotAmount);
  }

  lemma EventsTwice(w: World, e: Event, f: Event)
    ensures Emit(Emit(w, e), f) == w.(events := w.events + [e, f])
  {
    assert w.events + [e] + [f] == w.events + [e, f];
  }

  lemma SendHomeFrame(w: World, id: nat)
    requires id < |w.auctions|
    ensures SendHome(w, id).Ok? ==> OnlyTokens(Cancelling(w, id), SendHome(w, id).value)
  {
    var a := w.auctions[id];
    var w1 := SetAuction(w, id, a.(phase := Cancelled));
    ReleaseLotFrame(w1, id, a, a.seller);
    EventsTwice(w1, LotReleased(id, a.seller), AuctionCancelled(id));
  }

  lemma SellFrame(w: World, id: nat, winner: Address, price: U256)
    requires id < |w.auctions|
    ensures Sell(w, id, winner, price).Ok? ==>
            OnlyTokens(Selling(w, id, winner, price), Sell(w, id, winner, price).value)
  {
    var sold := w.auctions[id].(phase := Settled, winner := winner, clearingPrice := price);
    var w1 := SetAuction(w, id, sold);
    PullCoinsFrame(w1, sold.payToken, winner, sold.seller, price);
    var paid := PullCoins(w1, sold.payToken, winner, sold.seller, price);
    if paid.Ok? {
      ReleaseLotFrame(paid.value, id, sold, winner);
      EventsTwice(w1, LotReleased(id, winner), AuctionSettled(id, winner, price));
    }
  }

  lemma CancelShape(w: World, tx: Tx)
    requires tx.call.Cancel?
    ensures Apply(w, tx).Ok? ==> Shape(w, tx, Apply(w, tx).value)
  {
    if tx.call.auctionId < |w.auctions| {
      SendHomeFrame(w, tx.call.auctionId);
    }
  }

  lemma ResultHasShape(w: World, result: Codec.CloseResult)
    ensures ApplyResult(w, result).Ok? ==> ResultShape(w, result, ApplyResult(w, result).value)
  {
    if result.auctionId < |w.auctions| {
      SendHomeFrame(w, result.auctionId);
      SellFrame(w, result.auctionId, result.winner, result.clearingPrice);
    }
  }

  lemma SettleShape(w: World, tx: Tx)
    requires tx.call.SettleWith? && Apply(w, tx).Ok?
    ensures Codec.UnpackResult(tx.call.result.data).Ok?
    ensures var result := Codec.UnpackResult(tx.call.result.data).value;
            && w.teeAddress != ZERO_ADDRESS && tx.call.result.status == 1
            && Codec.SignerOf(w.chain, tx.call.result, tx.call.sig) == Ok(w.teeAddress)
            && result.contractAddr == w.self && Apply(w, tx) == ApplyResult(w, result)
            && ResultShape(w, result, Apply(w, tx).value)
  {
    ResultHasShape(w, Codec.UnpackResult(tx.call.result.data).value);
  }

  /** Every committed call has its shape. */
  lemma ApplyHasShape(w: World, tx: Tx)
    ensures Apply(w, tx).Ok? ==> Shape(w, tx, Apply(w, tx).value)
  {
    match tx.call {
      case Create(_, _, _, _, _, _, _, _) => CreateShape(w, tx);
      case Cancel(_) => CancelShape(w, tx);
      case SettleWith(_, _) =>
        if Apply(w, tx).Ok? {
          SettleShape(w, tx);
        }
      case Bid(_, _) =>
      case Close(_) =>
      case SetTee(_) =>
      case OnNft(_, _) =>
      case OnCoin(_, _) =>
    }
  }
}

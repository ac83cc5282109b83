/** Settlement: when it succeeds, what it moves, and that a result stays usable until it is used. */
module Settlement {
  import opened Types
  import opened Auction
  import opened Frames
  import opened Escrow
  import opened Lifecycle
  import Codec
  import Erc20
  import Erc721

  /** `r` reports success for this contract, and its signature recovers to the registered TEE. */
  ghost predicate Authentic(w: World, r: Codec.ActionResult, sig: Bytes, result: Codec.CloseResult) {
    && w.teeAddress != ZERO_ADDRESS && Codec.SignerOf(w.chain, r, sig) == Ok(w.teeAddress) && r.status == 1
    && Codec.UnpackResult(r.data) == Ok(result) && result.contractAddr == w.self
  }

  lemma AuthenticApplies(w: World, r: Codec.ActionResult, sig: Bytes, result: Codec.CloseResult)
    requires !w.entered && Authentic(w, r, sig, result)
    ensures Settle(w, r, sig) == ApplyResult(w, result)
  {
  }

  /** For a closing auction and an authentic result: a no-sale always settles, and a sale at or above
      the reserve settles exactly when the winner's balance and allowance cover the price. */
  lemma SettleSucceedsExactlyWhenFunded(w: World, r: Codec.ActionResult, sig: Bytes, result: Codec.CloseResult)
    requires Escrowed(w) && Authentic(w, r, sig, result)
    requires result.auctionId < |w.auctions| && w.auctions[result.auctionId].phase == Closing
    ensures result.winner == ZERO_ADDRESS ==> Settle(w, r, sig).Ok?
    ensures var a := w.auctions[result.auctionId];
            result.winner != ZERO_ADDRESS && result.clearingPrice >= a.reservePrice ==>
              Settle(w, r, sig).Ok? == Funded(w, a.payToken, result.winner, result.clearingPrice)
  {
    AuthenticApplies(w, r, sig, result);
    ApplyResultKeepsEscrow(w, result);
  }

  lemma SettledIsAuthentic(w: World, r: Codec.ActionResult, sig: Bytes)
    requires Settle(w, r, sig).Ok?
    ensures Codec.UnpackResult(r.data).Ok? && Authentic(w, r, sig, Codec.UnpackResult(r.data).value)
    ensures ResultShape(w, Codec.UnpackResult(r.data).value, Settle(w, r, sig).value)
  {
    ResultHasShape(w, Codec.UnpackResult(r.data).value);
  }

  lemma OnlyClosingSettles(w: World, r: Codec.ActionResult, sig: Bytes)
    requires Codec.UnpackResult(r.data).Ok?
    requires var id := Codec.UnpackResult(r.data).value.auctionId; id < |w.auctions| && w.auctions[id].phase != Closing
    ensures Settle(w, r, sig).Revert?
  {
  }

  /** What has settled does not settle again, however it is signed. */
  lemma NothingSettlesTwice(w: World, r: Codec.ActionResult, sig: Bytes, r2: Codec.ActionResult, sig2: Bytes)
    requires Settle(w, r, sig).Ok? && Codec.UnpackResult(r2.data) == Codec.UnpackResult(r.data)
    ensures Settle(Settle(w, r, sig).value, r2, sig2).Revert?
  {
    SettledIsAuthentic(w, r, sig);
    OnlyClosingSettles(Settle(w, r, sig).value, r2, sig2);
  }

  /** Authenticity: if the registered key's signatures are not forged, whatever settles is a result
      that key signed, for this very chain, reporting success and naming this contract and a closing
      auction. Afterwards no result with that content settles again. */
  lemma SettledWasSigned(w: World, signed: Codec.Signed, r: Codec.ActionResult, sig: Bytes)
    requires Settle(w, r, sig).Ok? && Codec.Reliable(w.chain, w.teeAddress, signed, r, sig)
    ensures (w.chain.chainId, r) in signed
    ensures Codec.UnpackResult(r.data).Ok? && Authentic(w, r, sig, Codec.UnpackResult(r.data).value)
    ensures var result := Codec.UnpackResult(r.data).value;
            && result.auctionId < |w.auctions| && w.auctions[result.auctionId].phase == Closing
            && forall r2: Codec.ActionResult, sig2: Bytes ::
                 Codec.UnpackResult(r2.data) == Ok(result) ==> Settle(Settle(w, r, sig).value, r2, sig2).Revert?
  {
    SettledIsAuthentic(w, r, sig);
    forall r2: Codec.ActionResult, sig2: Bytes | Codec.UnpackResult(r2.data) == Codec.UnpackResult(r.data)
      ensures Settle(Settle(w, r, sig).value, r2, sig2).Revert?
    {
      NothingSettlesTwice(w, r, sig, r2, sig2);
    }
    Codec.RecoveredResultWasSigned(w.chain, w.teeAddress, signed, r, sig);
  }

  /** A failed settlement leaves everything as it was, and the same signed result stays valid: after
      any further run, while the auction is still closing under the same TEE, it settles as soon as
      the winner is funded. */
  lemma {:induction false} SettlementCanBeRetried(w: World, r: Codec.ActionResult, sig: Bytes,
                                                  result: Codec.CloseResult, txs: seq<Tx>)
    requires Escrowed(w) && OutsideRun(w, txs) && Authentic(w, r, sig, result)
    requires result.auctionId < |w.auctions| && w.auctions[result.auctionId].phase == Closing
    requires result.winner != ZERO_ADDRESS && result.clearingPrice >= w.auctions[result.auctionId].reservePrice
    requires Run(w, txs).teeAddress == w.teeAddress
    ensures var w1 := Run(w, txs);
            var payToken := w.auctions[result.auctionId].payToken;
            && result.auctionId < |w1.auctions| && w1.auctions[result.auctionId].phase != Open
            && (w1.auctions[result.auctionId].phase == Closing ==>
                  Settle(w1, r, sig).Ok? == Funded(w1, payToken, result.winner, result.clearingPrice))
  {
    RunKeepsEscrow(w, txs);
    RunAdvances(w, txs, result.auctionId);
    if Run(w, txs).auctions[result.auctionId].phase == Closing {
      SettleSucceedsExactlyWhenFunded(Run(w, txs), r, sig, result);
    }
  }

  // ---------------------------------------------------------------- what moves

  /** Change of one account's balance when `amount` goes from `from` to `to`. */
  function Delta(c: Erc20.Coin, x: Address, from: Address, to: Address, amount: U256): int {
    (if x == to then Erc20.Received(c, amount) else 0) - (if x == from then amount else 0)
  }

  function LotDelta(w: World, a: Auction, to: Address, token: Address, x: Address): int
    requires token in w.coins
  {
    if a.lotKind == ERC20 && a.lotToken == token then Delta(w.coins[token], x, w.self, to, a.lotAmount) else 0
  }

  ghost predicate NftMoved(n: Erc721.Nft, m: Erc721.Nft, id: nat, to: Address) {
    forall j: nat :: Erc721.OwnerAt(m, j) == if j == id then to else Erc721.OwnerAt(n, j)
  }

  ghost predicate CoinsMoved(c: Erc20.Coin, d: Erc20.Coin, from: Address, to: Address, amount: U256) {
    d.fee == c.fee
    && forall x: Address :: Erc20.BalanceOf(d, x) == Erc20.BalanceOf(c, x) + Delta(c, x, from, to, amount)
  }

  /** Sending a lot to `to` moves that lot and no other NFT anywhere. */
  ghost predicate LotMoved(w: World, w1: World, a: Auction, to: Address) {
    && w1.nfts.Keys == w.nfts.Keys && w1.coins.Keys == w.coins.Keys
    && forall t :: t in w.nfts ==>
         if a.lotKind == ERC721 && t == a.lotToken then NftMoved(w.nfts[t], w1.nfts[t], a.lotTokenId, to)
         else w1.nfts[t] == w.nfts[t]
  }

  lemma NftReleaseMoves(w: World, i: nat, a: Auction, to: Address)
    requires a.lotKind == ERC721 && ReleaseLot(w, i, a, to).Ok?
    ensures var w1 := ReleaseLot(w, i, a, to).value; LotMoved(w, w1, a, to) && w1.coins == w.coins
  {
  }

  lemma CoinReleaseMoves(w: World, i: nat, a: Auction, to: Address)
    requires a.lotKind == ERC20 && ReleaseLot(w, i, a, to).Ok? && Erc20.Bounded(w.coins[a.lotToken])
    ensures var w1 := ReleaseLot(w, i, a, to).value;
            && LotMoved(w, w1, a, to) && w1.nfts == w.nfts
            && w1 == Emit(WithCoin(w, a.lotToken, w1.coins[a.lotToken]), LotReleased(i, to))
            && CoinsMoved(w.coins[a.lotToken], w1.coins[a.lotToken], w.self, to, a.lotAmount)
  {
    Erc20.TransferEffect(w.coins[a.lotToken], w.self, to, a.lotAmount);
  }

  lemma ReleaseMovesTheLot(w: World, i: nat, a: Auction, to: Address)
    requires TokensSafe(w) && ReleaseLot(w, i, a, to).Ok?
    ensures LotMoved(w, ReleaseLot(w, i, a, to).value, a, to)
    ensures forall t, x: Address :: t in w.coins ==>
              Erc20.BalanceOf(ReleaseLot(w, i, a, to).value.coins[t], x)
              == Erc20.BalanceOf(w.coins[t], x) + LotDelta(w, a, to, t, x)
  {
    if a.lotKind == ERC721 {
      NftReleaseMoves(w, i, a, to);
    } else {
      CoinReleaseMoves(w, i, a, to);
    }
  }

  lemma PaymentMovesThePrice(w: World, token: Address, from: Address, to: Address, amount: U256)
    requires TokensSafe(w) && PullCoins(w, token, from, to, amount).Ok?
    ensures token in w.coins
    ensures var w1 := PullCoins(w, token, from, to, amount).value;
            w1 == WithCoin(w, token, w1.coins[token]) && CoinsMoved(w.coins[token], w1.coins[token], from, to, amount)
  {
    Erc20.TransferFromEffect(w.coins[token], w.self, from, to, amount);
  }

  /** Every balance of every ERC-20 changes by the lot leg plus the payment leg and nothing else. */
  ghost predicate BalancesMoved(w: World, w1: World, a: Auction, winner: Address, price: U256) {
    forall t, x: Address :: t in w.coins && t in w1.coins ==>
      Erc20.BalanceOf(w1.coins[t], x)
      == Erc20.BalanceOf(w.coins[t], x) + LotDelta(w, a, winner, t, x)
         + if t == a.payToken then Delta(w.coins[t], x, winner, a.seller, price) else 0
  }

  /** The two legs together, from the effect of each. */
  lemma LegsCompose(w: World, paid: World, released: World, a: Auction, winner: Address, price: U256)
    requires a.payToken in w.coins && paid.self == w.self
    requires paid.nfts == w.nfts && paid.coins.Keys == w.coins.Keys
    requires forall t :: t in w.coins && t != a.payToken ==> paid.coins[t] == w.coins[t]
    requires CoinsMoved(w.coins[a.payToken], paid.coins[a.payToken], winner, a.seller, price)
    requires LotMoved(paid, released, a, winner)
    requires forall t, x: Address :: t in paid.coins ==>
               Erc20.BalanceOf(released.coins[t], x) == Erc20.BalanceOf(paid.coins[t], x)
                   + LotDelta(paid, a, winner, t, x)
    ensures LotMoved(w, released, a, winner) && BalancesMoved(w, released, a, winner, price)
  {
    forall t, x: Address | t in w.coins && t in released.coins
      ensures Erc20.BalanceOf(released.coins[t], x)
           == Erc20.BalanceOf(w.coins[t], x) + LotDelta(w, a, winner, t, x)
              + if t == a.payToken then Delta(w.coins[t], x, winner, a.seller, price) else 0
    {
      assert t in paid.coins;
      assert paid.coins[t].fee == w.coins[t].fee;
    }
  }

  lemma TwoLegsSwap(w: World, id: nat, sold: Auction, paid: World, released: World, winner: Address, price: U256)
    requires Escrowed(w) && id < |w.auctions| && SameTerms(w.auctions[id], sold)
    requires PullCoins(SetAuction(w, id, sold), sold.payToken, winner, sold.seller, price) == Ok(paid)
    requires ReleaseLot(paid, id, sold, winner) == Ok(released)
    ensures LotMoved(w, released, sold, winner) && BalancesMoved(w, released, sold, winner, price)
  {
    var marked := SetAuction(w, id, sold);
    OtherLedgersKeepBacking(w, marked, w.auctions);
    PaymentMovesThePrice(marked, sold.payToken, winner, sold.seller, price);
    PaymentKeepsBacking(marked, w.auctions, sold.payToken, winner, sold.seller, price);
    ReleaseMovesTheLot(paid, id, sold, winner);
    LegsCompose(w, paid, released, sold, winner, price);
  }

  /** The swap is atomic and exact: a committed sale changes every balance of every ERC-20 by the
      payment leg plus the lot leg and by nothing else, and moves no NFT but the sold one. */
  lemma SaleSwapsExactly(w: World, id: nat, winner: Address, price: U256)
    requires Escrowed(w) && id < |w.auctions| && Sell(w, id, winner, price).Ok?
    ensures var w1 := Sell(w, id, winner, price).value;
            LotMoved(w, w1, w.auctions[id], winner) && BalancesMoved(w, w1, w.auctions[id], winner, price)
  {
    var sold := w.auctions[id].(phase := Settled, winner := winner, clearingPrice := price);
    var paid := PullCoins(SetAuction(w, id, sold), sold.payToken, winner, sold.seller, price).value;
    TwoLegsSwap(w, id, sold, paid, ReleaseLot(paid, id, sold, winner).value, winner, price);
  }

  /** The lot of `a` went home and nothing else moved. */
  ghost predicate ReturnedHome(w: World, w1: World, a: Auction) {
    && LotMoved(w, w1, a, a.seller)
    && forall t, x: Address :: t in w.coins ==>
         Erc20.BalanceOf(w1.coins[t], x) == Erc20.BalanceOf(w.coins[t], x) + LotDelta(w, a, a.seller, t, x)
  }

  /** A cancellation, by the seller or by a result without a winner, returns the lot to the seller and
      moves nothing else. */
  lemma CancellationReturnsTheLot(w: World, id: nat)
    requires Escrowed(w) && id < |w.auctions| && SendHome(w, id).Ok?
    ensures ReturnedHome(w, SendHome(w, id).value, w.auctions[id])
  {
    var a := w.auctions[id];
    var w1 := SetAuction(w, id, a.(phase := Cancelled));
    OtherLedgersKeepBacking(w, w1, w.auctions);
    ReleaseMovesTheLot(w1, id, a, a.seller);
  }

  // ---------------------------------------------------------------- token movements over whole runs

  lemma {:induction false} RunAfter(w: World, txs: seq<Tx>, k: nat)
    requires k < |txs|
    ensures Run(w, txs[..k + 1]) == Step(Run(w, txs[..k]), txs[k])
  {
    assert txs[..k + 1][..k] == txs[..k];
  }

  predicate Finished(w: World, i: nat) { i < |w.auctions| && !Live(w.auctions[i]) }

  lemma FinishedStays(w: World, tx: Tx, w1: World, i: nat)
    requires Finished(w, i) && w1 == Step(w, tx)
    ensures Finished(w1, i) && w1.auctions[i] == w.auctions[i]
  {
    StepAdvances(w, tx, i);
  }

  /** The first `k` transactions leave auction `i` unfinished, and one more finishes it for good. */
  ghost predicate EndsAt(w: World, txs: seq<Tx>, i: nat, k: nat) {
    && k < |txs| && !Finished(Run(w, txs[..k]), i) && Finished(Run(w, txs[..k + 1]), i)
    && Finished(Run(w, txs), i) && Run(w, txs[..k + 1]).auctions[i] == Run(w, txs).auctions[i]
  }

  lemma EndsAtLater(w: World, txs: seq<Tx>, i: nat, k: nat)
    requires txs != [] && EndsAt(w, txs[..|txs| - 1], i, k)
    ensures EndsAt(w, txs, i, k)
  {
    var n := |txs| - 1;
    assert txs[..n][..k] == txs[..k] && txs[..n][..k + 1] == txs[..k + 1];
    FinishedStays(Run(w, txs[..n]), txs[n], Run(w, txs), i);
  }

  /** The step at which an auction of a finished run ended. */
  lemma {:induction false} EndingStep(w: World, txs: seq<Tx>, i: nat) returns (k: nat)
    requires w.auctions == [] && Finished(Run(w, txs), i)
    ensures EndsAt(w, txs, i, k)
  {
    var n := |txs| - 1;
    if Finished(Run(w, txs[..n]), i) {
      k := EndingStep(w, txs[..n], i);
      EndsAtLater(w, txs, i, k);
    } else {
      k := n;
      assert txs[..n + 1] == txs;
    }
  }

  /** What ending auction `i` moved: the swap of a sale, or the way home, and nothing else. */
  ghost predicate EndMoved(w: World, w1: World, i: nat)
    requires i < |w.auctions| && i < |w1.auctions|
  {
    var a, b := w.auctions[i], w1.auctions[i];
    && SameTerms(a, b)
    && (b.phase == Settled ==> LotMoved(w, w1, a, b.winner) && BalancesMoved(w, w1, a, b.winner, b.clearingPrice))
    && (b.phase == Cancelled ==> ReturnedHome(w, w1, a))
  }

  lemma ResultMoves(w: World, result: Codec.CloseResult, i: nat)
    requires Escrowed(w) && i < |w.auctions| && ApplyResult(w, result).Ok? && Live(w.auctions[i])
    requires var w1 := ApplyResult(w, result).value; i < |w1.auctions| && !Live(w1.auctions[i])
    ensures EndMoved(w, ApplyResult(w, result).value, i)
  {
    ResultHasShape(w, result);
    assert i == result.auctionId;
    if result.winner == ZERO_ADDRESS {
      CancellationReturnsTheLot(w, i);
    } else {
      SaleSwapsExactly(w, i, result.winner, result.clearingPrice);
    }
  }

  lemma OnlyEndingsEnd(w: World, tx: Tx, w1: World, i: nat)
    requires Shape(w, tx, w1) && !tx.call.SettleWith? && !tx.call.Cancel?
    requires i < |w1.auctions| && (i < |w.auctions| ==> Live(w.auctions[i]))
    ensures Live(w1.auctions[i])
  {
  }

  lemma NewAuctionsAreLive(w: World, tx: Tx, i: nat)
    requires |w.auctions| <= i < |Step(w, tx).auctions|
    ensures Live(Step(w, tx).auctions[i])
  {
    ApplyHasShape(w, tx);
    if tx.call.SettleWith? && Apply(w, tx).Ok? {
      SettleShape(w, tx);
    }
  }

  lemma EndingMoves(w: World, tx: Tx, i: nat)
    requires Escrowed(w) && i < |w.auctions| && Live(w.auctions[i]) && Finished(Step(w, tx), i)
    ensures EndMoved(w, Step(w, tx), i)
  {
    if Apply(w, tx).Ok? {
      if tx.call.SettleWith? {
        SettleShape(w, tx);
        ResultMoves(w, Codec.UnpackResult(tx.call.result.data).value, i);
      } else {
        ApplyHasShape(w, tx);
        if tx.call.Cancel? {
          CancellationReturnsTheLot(w, i);
        } else {
          OnlyEndingsEnd(w, tx, Apply(w, tx).value, i);
        }
      }
    }
  }

  lemma FinishingMoves(w: World, tx: Tx, w1: World, i: nat)
    requires Escrowed(w) && w1 == Step(w, tx) && !Finished(w, i) && Finished(w1, i)
    ensures i < |w.auctions| && Live(w.auctions[i]) && EndMoved(w, w1, i)
  {
    if i < |w.auctions| {
      EndingMoves(w, tx, i);
    } else {
      NewAuctionsAreLive(w, tx, i);
    }
  }

  /** Main result: over every run from deployment, each finished auction was ended by one step, which
      swapped price and lot exactly or took the lot home exactly, and moved nothing else. */
  lemma {:induction false} EveryEndMovedExactly(w: World, txs: seq<Tx>, i: nat) returns (k: nat)
    requires Fresh(w) && OutsideRun(w, txs) && Finished(Run(w, txs), i)
    ensures EndsAt(w, txs, i, k)
    ensures i < |Run(w, txs[..k]).auctions| && EndMoved(Run(w, txs[..k]), Run(w, txs[..k + 1]), i)
  {
    k := EndingStep(w, txs, i);
    RunAfter(w, txs, k);
    RunKeepsEscrow(w, txs[..k]);
    FinishingMoves(Run(w, txs[..k]), txs[k], Run(w, txs[..k + 1]), i);
  }

  /** That step is the one at which the log got the release of the lot. */
  lemma {:induction false} ReleaseIsLoggedAtTheEnd(w: World, txs: seq<Tx>, i: nat, k: nat)
    requires Fresh(w) && EndsAt(w, txs, i, k)
    ensures Releases(Run(w, txs[..k]).events, i) == []
    ensures |Releases(Run(w, txs[..k + 1]).events, i)| == 1
    ensures Releases(Run(w, txs).events, i) == Releases(Run(w, txs[..k + 1]).events, i)
  {
    JournalHoldsInEveryRun(w, txs[..k], i);
    JournalHoldsInEveryRun(w, txs[..k + 1], i);
    JournalHoldsInEveryRun(w, txs, i);
  }

  /** Escrowing moves the lot in and nothing else. */
  ghost predicate LotEscrowedFrom(w: World, w1: World, from: Address, kind: LotKind, token: Address, id: U256,
                                  amount: U256) {
    && w1.nfts.Keys == w.nfts.Keys && w1.coins.Keys == w.coins.Keys
    && (forall t :: t in w.nfts ==>
          if kind == ERC721 && t == token then NftMoved(w.nfts[t], w1.nfts[t], id, w.self)
          else w1.nfts[t] == w.nfts[t])
    && (forall t :: t in w.coins ==>
          if kind == ERC20 && t == token then CoinsMoved(w.coins[t], w1.coins[t], from, w.self, amount)
          else w1.coins[t] == w.coins[t])
  }

  lemma NftPullMoves(w: World, from: Address, token: Address, id: U256, amount: U256)
    requires PullLot(w, from, ERC721, token, id, amount).Ok?
    ensures LotEscrowedFrom(w, PullLot(w, from, ERC721, token, id, amount).value.0, from, ERC721, token, id, amount)
  {
    Erc721.TransferMovesOneToken(w.nfts[token], w.self, from, w.self, id);
  }

  lemma CoinPullMoves(w: World, from: Address, token: Address, id: U256, amount: U256)
    requires TokensSafe(w) && from != w.self && PullLot(w, from, ERC20, token, id, amount).Ok?
    ensures token in w.coins
    ensures var (w1, escrowed) := PullLot(w, from, ERC20, token, id, amount).value;
            && LotEscrowedFrom(w, w1, from, ERC20, token, id, amount)
            && escrowed == Erc20.Received(w.coins[token], amount)
  {
    PaymentMovesThePrice(w, token, from, w.self, amount);
  }

  /** Creating an auction moves the lot in from the seller and nothing else; what is recorded is what
      arrived. */
  lemma CreationEscrowsTheLot(w: World, tx: Tx)
    requires Escrowed(w) && Outside(w, tx) && tx.call.Create? && Apply(w, tx).Ok?
    ensures var w1, c := Apply(w, tx).value, tx.call;
            && |w1.auctions| == |w.auctions| + 1
            && LotEscrowedFrom(w, w1, tx.caller, c.kind, c.lotToken, c.lotTokenId, c.lotAmount)
            && (c.kind == ERC20 ==> c.lotToken in w.coins && w1.auctions[|w.auctions|].lotAmount
                                                         == Erc20.Received(w.coins[c.lotToken], c.lotAmount))
  {
    var c := tx.call;
    if c.kind == ERC721 {
      NftPullMoves(w, tx.caller, c.lotToken, c.lotTokenId, c.lotAmount);
    } else {
      CoinPullMoves(w, tx.caller, c.lotToken, c.lotTokenId, c.lotAmount);
    }
    PullLotFrame(w, tx.caller, c.kind, c.lotToken, c.lotTokenId, c.lotAmount);
  }

  /** The rest: a bid, a close, a registration or a reverted call moves no token at all. */
  lemma OtherCallsMoveNothing(w: World, tx: Tx)
    requires tx.call.Bid? || tx.call.Close? || tx.call.SetTee? || Apply(w, tx).Revert?
    ensures Step(w, tx).nfts == w.nfts && Step(w, tx).coins == w.coins
  {
    ApplyHasShape(w, tx);
  }
}

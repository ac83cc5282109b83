/** When each entry point of the contract commits, exactly, and what a refusal means: conditions a caller
    can check beforehand, with the ledgers read directly. */
module Calls {
  import opened Types
  import opened Auction
  import opened Frames
  import opened Escrow
  import opened Settlement
  import Codec
  import Erc20
  import Erc721
  import Wire

  // ---------------------------------------------------------------- createAuction

  /** The caller owns the NFT and the contract may move it. The amount plays no part. */
  predicate NftCanCome(w: World, caller: Address, token: Address, id: U256) {
    && token in w.nfts && id in w.nfts[token].owners && w.nfts[token].owners[id] == caller
    && (|| (id in w.nfts[token].approvals && w.nfts[token].approvals[id] == w.self)
        || (caller, w.self) in w.nfts[token].operators)
  }

  /** Allowance and balance cover a positive amount, and its fee leaves something. */
  predicate CoinsCanCome(w: World, caller: Address, token: Address, amount: U256) {
    && token in w.coins && amount > 0 && w.coins[token].fee(amount) < amount
    && caller in w.coins[token].balances && w.coins[token].balances[caller] >= amount
    && (caller, w.self) in w.coins[token].allowances && w.coins[token].allowances[(caller, w.self)] >= amount
  }

  predicate LotCanCome(w: World, caller: Address, kind: LotKind, token: Address, id: U256, amount: U256) {
    if kind == ERC721 then NftCanCome(w, caller, token, id) else CoinsCanCome(w, caller, token, amount)
  }

  lemma NftComesExactly(w: World, caller: Address, token: Address, id: U256, amount: U256)
    requires Escrowed(w) && caller != w.self && caller != ZERO_ADDRESS
    ensures PullLot(w, caller, ERC721, token, id, amount).Ok? <==> NftCanCome(w, caller, token, id)
    ensures PullLot(w, caller, ERC721, token, id, amount).Ok? ==>
              PullLot(w, caller, ERC721, token, id, amount).value.1 == 1
  {
    if token in w.nfts {
      Erc721.TransferNeverFailsOnArithmetic(w.nfts[token], w.self, caller, w.self, id);
    }
  }

  lemma CoinsComeExactly(w: World, caller: Address, token: Address, id: U256, amount: U256)
    requires Escrowed(w) && caller != w.self && caller != ZERO_ADDRESS
    ensures PullLot(w, caller, ERC20, token, id, amount).Ok? <==> CoinsCanCome(w, caller, token, amount)
    ensures PullLot(w, caller, ERC20, token, id, amount).Ok? ==>
              PullLot(w, caller, ERC20, token, id, amount).value.1 == amount - w.coins[token].fee(amount)
  {
    if token in w.coins {
      CoinsCanBePulled(w.self, w.coins[token], caller, w.self, amount);
    }
  }

  lemma LotComesExactly(w: World, caller: Address, kind: LotKind, token: Address, id: U256, amount: U256)
    requires Escrowed(w) && caller != w.self && caller != ZERO_ADDRESS
    ensures PullLot(w, caller, kind, token, id, amount).Ok? <==> LotCanCome(w, caller, kind, token, id, amount)
  {
    if kind == ERC721 {
      NftComesExactly(w, caller, token, id, amount);
    } else {
      CoinsComeExactly(w, caller, token, id, amount);
    }
  }

  predicate CreationAsked(w: World, now: U64, c: Call)
    requires c.Create?
  {
    && c.payToken != ZERO_ADDRESS && c.lotToken != ZERO_ADDRESS && c.deadline > now && c.lot != ""
    && |w.auctions| < 0x1_0000_0000_0000_0000
  }

  lemma PullingKeepsCount(w: World, caller: Address, kind: LotKind, token: Address, id: U256, amount: U256)
    ensures PullLot(w, caller, kind, token, id, amount).Ok? ==>
              PullLot(w, caller, kind, token, id, amount).value.0.auctions == w.auctions
  {
    PullLotFrame(w, caller, kind, token, id, amount);
  }

  /** An auction can be created exactly when its terms are in order and the lot can come. */
  lemma CreatesExactly(w: World, tx: Tx)
    requires Escrowed(w) && Outside(w, tx) && tx.call.Create?
    ensures var c := tx.call;
            Apply(w, tx).Ok?
            <==> CreationAsked(w, tx.now, c) && LotCanCome(w, tx.caller, c.kind, c.lotToken, c.lotTokenId, c.lotAmount)
  {
    var c := tx.call;
    LotComesExactly(w, tx.caller, c.kind, c.lotToken, c.lotTokenId, c.lotAmount);
    PullingKeepsCount(w, tx.caller, c.kind, c.lotToken, c.lotTokenId, c.lotAmount);
  }

  /** What the new record says is in escrow: one NFT, or the coins net of their fee. */
  lemma CreatedAmount(w: World, tx: Tx)
    requires Escrowed(w) && Outside(w, tx) && tx.call.Create? && Apply(w, tx).Ok?
    ensures var c, a := tx.call, Apply(w, tx).value.auctions[|w.auctions|];
            if c.kind == ERC721 then a.lotAmount == 1
            else c.lotToken in w.coins && a.lotAmount == c.lotAmount - w.coins[c.lotToken].fee(c.lotAmount)
  {
    var c := tx.call;
    NftComesExactly(w, tx.caller, c.lotToken, c.lotTokenId, c.lotAmount);
    CoinsComeExactly(w, tx.caller, c.lotToken, c.lotTokenId, c.lotAmount);
    PullLotFrame(w, tx.caller, c.kind, c.lotToken, c.lotTokenId, c.lotAmount);
  }

  // ---------------------------------------------------------------- placeBid, closeAuction, setTeeAddress

  /** A bid is taken exactly when the auction exists, is open and before its deadline, the ciphertext is
      nonempty and the registries accept; only a bid count at the end of its 256 bits stands in the way. */
  lemma BidsExactly(w: World, tx: Tx)
    requires tx.call.Bid?
    ensures var id := tx.call.auctionId;
            Apply(w, tx).Ok?
            <==> && id < |w.auctions| && w.auctions[id].phase == Open && tx.now < w.auctions[id].deadline
                 && tx.call.ciphertext != [] && tx.routed
                 && w.auctions[id].bidCount
                    < 0xFFFF_FFFF_FFFF_FFFF_FFFF_FFFF_FFFF_FFFF_FFFF_FFFF_FFFF_FFFF_FFFF_FFFF_FFFF_FFFF
  {
  }

  /** A close is taken exactly when the auction exists, is open or already closing, its deadline has come
      and the registries accept. */
  lemma ClosesExactly(w: World, tx: Tx)
    requires tx.call.Close?
    ensures var id := tx.call.auctionId;
            Apply(w, tx).Ok?
            <==> && id < |w.auctions| && (w.auctions[id].phase == Open || w.auctions[id].phase == Closing)
                 && tx.now >= w.auctions[id].deadline && tx.routed
  {
  }

  lemma RegistersExactly(w: World, tx: Tx)
    requires tx.call.SetTee?
    ensures Apply(w, tx).Ok? <==> tx.caller == w.owner && tx.call.tee != 0
    ensures Apply(w, tx).Ok? ==> Apply(w, tx).value.teeAddress == tx.call.tee
  {
  }

  lemma CancelsExactly(w: World, tx: Tx)
    requires Escrowed(w) && tx.call.Cancel?
    ensures var id := tx.call.auctionId;
            Apply(w, tx).Ok?
            <==> && id < |w.auctions| && tx.caller == w.auctions[id].seller
                 && w.auctions[id].phase == Open && w.auctions[id].bidCount == 0
  {
    CancelKeepsEscrow(w, tx.caller, tx.call.auctionId);
  }

  // ---------------------------------------------------------------- settle

  /** The signature is 65 bytes r, s, v by the registered key over what the TEE node signs. */
  predicate SignedByTee(w: World, r: Codec.ActionResult, sig: Bytes) {
    && w.teeAddress != 0 && |sig| == 65 && Wire.IsRecoveryByte(sig[64])
    && var digest := Wire.NodeDigest(w.chain.keccak, w.chain.chainId, r);
       w.chain.ecrecover(digest, Wire.Normal(sig[64]), sig[..32], sig[32..64]) == w.teeAddress
  }

  predicate PayerCovers(w: World, token: Address, payer: Address, price: U256) {
    && token in w.coins
    && (price == 0 || (payer in w.coins[token].balances && w.coins[token].balances[payer] >= price))
    && (price == 0 || ((payer, w.self) in w.coins[token].allowances
                       && w.coins[token].allowances[(payer, w.self)] >= price))
  }

  /** The closing auction the result names can end as the result says. */
  predicate CanEndAs(w: World, c: Codec.CloseResult) {
    && c.contractAddr == w.self && c.auctionId < |w.auctions| && w.auctions[c.auctionId].phase == Closing
    && (c.winner != 0 ==>
          && c.clearingPrice >= w.auctions[c.auctionId].reservePrice
          && PayerCovers(w, w.auctions[c.auctionId].payToken, c.winner, c.clearingPrice))
  }

  lemma AuthenticIsSigned(w: World, r: Codec.ActionResult, sig: Bytes, c: Codec.CloseResult)
    requires Codec.UnpackResult(r.data) == Ok(c)
    ensures Authentic(w, r, sig, c) <==> SignedByTee(w, r, sig) && r.status == 1 && c.contractAddr == w.self
  {
    if w.teeAddress != ZERO_ADDRESS {
      Wire.SignerIs(w.chain, r, sig, w.teeAddress);
    }
  }

  /** A result settles exactly when the registered key signed it over the node's own bytes, it reports
      success, its bytes decode, and the auction it names can end as it says. */
  lemma SettlesExactly(w: World, r: Codec.ActionResult, sig: Bytes)
    requires Escrowed(w)
    ensures Settle(w, r, sig).Ok?
       <==> && SignedByTee(w, r, sig) && r.status == 1 && Codec.UnpackResult(r.data).Ok?
            && CanEndAs(w, Codec.UnpackResult(r.data).value)
  {
    if Codec.UnpackResult(r.data).Ok? {
      var c := Codec.UnpackResult(r.data).value;
      AuthenticIsSigned(w, r, sig, c);
      ApplyResultKeepsEscrow(w, c);
      if Authentic(w, r, sig, c) {
        AuthenticApplies(w, r, sig, c);
      }
    }
    if Settle(w, r, sig).Ok? {
      SettledIsAuthentic(w, r, sig);
    }
  }

  /** In particular a result packed and signed by the TEE node settles. */
  lemma NodeResultSettles(w: World, c: Codec.CloseResult, actionId: Codec.Bytes32, tag: Bytes, sig: Bytes)
    requires Escrowed(w) && CanEndAs(w, c)
             && SignedByTee(w, Codec.ActionResult(Codec.PackResult(c), actionId, tag, 1), sig)
    ensures Settle(w, Codec.ActionResult(Codec.PackResult(c), actionId, tag, 1), sig).Ok?
  {
    Codec.UnpackInvertsPack(c);
    SettlesExactly(w, Codec.ActionResult(Codec.PackResult(c), actionId, tag, 1), sig);
  }

  // ---------------------------------------------------------------- what a refusal means

  predicate NoAuction(w: World, id: U256) { id >= |w.auctions| }

  /** Each reason for refusing a bid holds. */
  lemma BidRefusalHolds(w: World, tx: Tx)
    requires tx.call.Bid? && Apply(w, tx).Revert?
    ensures var id := tx.call.auctionId;
            match Apply(w, tx).error
            case NoSuchAuction => NoAuction(w, id)
            case AuctionNotOpen => !NoAuction(w, id) && w.auctions[id].phase != Open
            case BiddingClosed => !NoAuction(w, id) && tx.now >= w.auctions[id].deadline
            case EmptyCiphertext => tx.call.ciphertext == []
            case NotRouted => !tx.routed
            case Overflow => !NoAuction(w, id) && w.auctions[id].bidCount == MAX_U256
            case _ => false
  {
  }

  lemma CloseRefusalHolds(w: World, tx: Tx)
    requires tx.call.Close? && Apply(w, tx).Revert?
    ensures var id := tx.call.auctionId;
            match Apply(w, tx).error
            case NoSuchAuction => NoAuction(w, id)
            case AuctionNotClosable => !NoAuction(w, id) && !Live(w.auctions[id])
            case BiddingStillOpen => !NoAuction(w, id) && tx.now < w.auctions[id].deadline
            case NotRouted => !tx.routed
            case _ => false
  {
  }

  lemma CancelRefusalHolds(w: World, tx: Tx)
    requires Escrowed(w) && tx.call.Cancel? && Apply(w, tx).Revert?
    ensures var id := tx.call.auctionId;
            match Apply(w, tx).error
            case NoSuchAuction => NoAuction(w, id)
            case NotSeller => !NoAuction(w, id) && tx.caller != w.auctions[id].seller
            case AuctionNotOpen => !NoAuction(w, id) && w.auctions[id].phase != Open
            case BidsExist => !NoAuction(w, id) && w.auctions[id].bidCount > 0
            case _ => false
  {
    CancelKeepsEscrow(w, tx.caller, tx.call.auctionId);
  }

  lemma CreateRefusalHolds(w: World, tx: Tx)
    requires Escrowed(w) && Outside(w, tx) && tx.call.Create? && Apply(w, tx).Revert?
    ensures var c := tx.call;
            match Apply(w, tx).error
            case ZeroPayToken => c.payToken == 0
            case ZeroLotToken => c.lotToken == 0
            case DeadlineInPast => c.deadline <= tx.now
            case LotRequired => c.lot == ""
            case ArrayTooLong => |w.auctions| >= TWO_64
            case ZeroLotAmount => c.kind == ERC20 && c.lotAmount == 0
            case Reentrant => false
            case _ => !LotCanCome(w, tx.caller, c.kind, c.lotToken, c.lotTokenId, c.lotAmount)
  {
    var c := tx.call;
    LotComesExactly(w, tx.caller, c.kind, c.lotToken, c.lotTokenId, c.lotAmount);
  }

  lemma SettleRefusalHolds(w: World, r: Codec.ActionResult, sig: Bytes)
    requires Escrowed(w) && Settle(w, r, sig).Revert?
    ensures match Settle(w, r, sig).error
            case TeeNotSet => w.teeAddress == 0
            case TeeReportedFailure => r.status != 1
            case BadSignatureLength => |sig| != 65
            case BadSignatureV => |sig| == 65 && !Wire.IsRecoveryByte(sig[64])
            case InvalidSignature => !SignedByTee(w, r, sig)
            case BadSignature => !SignedByTee(w, r, sig)
            case BadResultData => Codec.UnpackResult(r.data).Revert?
            case Reentrant => false
            case _ => Codec.UnpackResult(r.data).Ok? && !CanEndAs(w, Codec.UnpackResult(r.data).value)
  {
    Wire.NoSigner(w.chain, r, sig);
    if w.teeAddress != ZERO_ADDRESS {
      Wire.SignerIs(w.chain, r, sig, w.teeAddress);
    }
    if Codec.UnpackResult(r.data).Ok? {
      SettlesExactly(w, r, sig);
    }
  }

  // ---------------------------------------------------------------- calls to the tokens themselves

  /** An outside account's call to a token is that token's own request, made in the account's name. */
  lemma TokenCallsExactly(w: World, tx: Tx)
    requires tx.call.OnNft? || tx.call.OnCoin?
    ensures match tx.call
            case OnNft(token, op) =>
              && (Apply(w, tx).Ok? <==> token in w.nfts && Erc721.Do(w.nfts[token], tx.caller, op).Ok?)
              && (Apply(w, tx).Ok? ==>
                    Apply(w, tx).value == w.(nfts := w.nfts[token := Erc721.Do(w.nfts[token], tx.caller, op).value]))
            case OnCoin(token, op) =>
              && (Apply(w, tx).Ok? <==> token in w.coins && Erc20.Do(w.coins[token], tx.caller, op).Ok?)
              && (Apply(w, tx).Ok? ==>
                    Apply(w, tx).value == w.(coins := w.coins[token := Erc20.Do(w.coins[token], tx.caller, op).value]))
  {
  }
}

/** Calls to tokens that call back. Around every transfer a token may call every entry point of the
    auction and every other token; one that misbehaves moves nothing and answers as it likes, one that
    behaves keeps its ledger honestly. Lots held in well-behaved tokens stay in escrow all the same. */
module Hostile {
  import opened Types
  import opened Auction
  import opened Frames
  import opened Escrow
  import Codec
  import Erc20
  import Erc721

  /** What happens inside a call to a token: what is called back before and after it moves anything, and
      of one that misbehaves whether it reports success and how much it makes appear to have arrived. */
  datatype Reply = Reply(before: seq<Tx>, after: seq<Tx>, succeeds: bool, shown: U256)

  const SILENT: Reply := Reply([], [], true, 0)

  /** The tokens in `w.nfts` and `w.coins` behave; any other address may be a misbehaving token. */
  predicate Behaves(w: World, kind: LotKind, token: Address) {
    if kind == ERC721 then token in w.nfts else token in w.coins
  }

  ghost function CallOut(w: World, reply: Reply): Result<World> {
    var _ :- Require(reply.succeeds, NoCode);
    Ok(Run(Run(w, reply.before), reply.after))
  }

  ghost function PullNft(w: World, caller: Address, token: Address, id: U256, reply: Reply): Result<(World, U256)> {
    var w1 :- MoveNft(Run(w, reply.before), token, caller, w.self, id);
    var w2 := Run(w1, reply.after);
    var _ :- Require(token in w2.nfts, NoCode);
    var holder :- Erc721.OwnerOf(w2.nfts[token], id);
    var _ :- Require(holder == w.self, LotEscrowFailed);
    Ok((w2, 1))
  }

  /** What arrived is the difference of two readings, with the callbacks in between. */
  ghost function PullCoin(w: World, caller: Address, token: Address, amount: U256, reply: Reply): Result<(World, U256)>
    requires token in w.coins
  {
    var _ :- Require(amount > 0, ZeroLotAmount);
    var held := Erc20.BalanceOf(w.coins[token], w.self);
    var w1 :- PullCoins(Run(w, reply.before), token, caller, w.self, amount);
    var w2 := Run(w1, reply.after);
    var _ :- Require(token in w2.coins, NoCode);
    var holds := Erc20.BalanceOf(w2.coins[token], w.self);
    var _ :- Require(holds > held, LotEscrowFailed);
    Ok((w2, holds - held))
  }

  ghost function Pull(w: World, caller: Address, kind: LotKind, token: Address, id: U256, amount: U256, reply: Reply)
    : Result<(World, U256)>
  {
    if kind == ERC721 && token in w.nfts then PullNft(w, caller, token, id, reply)
    else if kind == ERC20 && token in w.coins then PullCoin(w, caller, token, amount, reply)
    else
      var _ :- Require(kind == ERC721 || amount > 0, ZeroLotAmount);
      var w1 :- CallOut(w, reply);
      var _ :- Require(kind == ERC721 || reply.shown > 0, LotEscrowFailed);
      Ok((w1, if kind == ERC721 then 1 else reply.shown))
  }

  function MoveLot(w: World, a: Auction, to: Address): Result<World> {
    if a.lotKind == ERC721 then MoveNft(w, a.lotToken, w.self, to, a.lotTokenId)
    else SendCoins(w, a.lotToken, to, a.lotAmount)
  }

  ghost function Release(w: World, id: nat, a: Auction, to: Address, reply: Reply): Result<World> {
    if Behaves(w, a.lotKind, a.lotToken) then
      var w1 :- MoveLot(Run(w, reply.before), a, to);
      Ok(Emit(Run(w1, reply.after), LotReleased(id, to)))
    else
      var w1 :- CallOut(w, reply);
      Ok(Emit(w1, LotReleased(id, to)))
  }

  ghost function Pay(w: World, token: Address, from: Address, to: Address, amount: U256, reply: Reply): Result<World> {
    if token in w.coins then
      var w1 :- PullCoins(Run(w, reply.before), token, from, to, amount);
      Ok(Run(w1, reply.after))
    else CallOut(w, reply)
  }

  // ---------------------------------------------------------------- the guarded entry points

  function Enter(w: World): World { w.(entered := true) }
  function Leave(w: World): World { w.(entered := false) }

  /** The record a creation pushes once the pull has come back. */
  function Pushed(caller: Address, c: Call, escrowed: U256): Auction
    requires c.Create?
  {
    Auction(caller, c.lot, c.kind, c.lotToken, c.lotTokenId, escrowed, c.payToken, c.deadline, c.reservePrice,
            Open, ZERO_ADDRESS, 0, 0)
  }

  /** `createAuction` inside its guard. The record is pushed only after the pull has come back. */
  ghost function CreateInside(w: World, caller: Address, now: U64, c: Call, reply: Reply): Result<World>
    requires c.Create?
  {
    var _ :- Require(c.payToken != ZERO_ADDRESS, ZeroPayToken);
    var _ :- Require(c.lotToken != ZERO_ADDRESS, ZeroLotToken);
    var _ :- Require(c.deadline > now, DeadlineInPast);
    var _ :- Require(|c.lot| > 0, LotRequired);
    var (w1, escrowed) :- Pull(w, caller, c.kind, c.lotToken, c.lotTokenId, c.lotAmount, reply);
    var _ :- Require(|w1.auctions| < TWO_64, ArrayTooLong);
    var id := |w1.auctions|;
    Ok(w1.(auctions := w1.auctions + [Pushed(caller, c, escrowed)],
           events := w1.events + [AuctionCreated(id, caller),
                                  LotEscrowed(id, c.lotToken, c.lotTokenId, escrowed)]))
  }

  ghost function Create(w: World, caller: Address, now: U64, c: Call, reply: Reply): Result<World>
    requires c.Create?
  {
    var _ :- Require(!w.entered, Reentrant);
    var w1 :- CreateInside(Enter(w), caller, now, c, reply);
    Ok(Leave(w1))
  }

  ghost function SendBack(w: World, id: nat, reply: Reply): Result<World>
    requires id < |w.auctions|
  {
    var a := w.auctions[id];
    var w1 :- Release(SetAuction(Enter(w), id, a.(phase := Cancelled)), id, a, a.seller, reply);
    Ok(Emit(Leave(w1), AuctionCancelled(id)))
  }

  ghost function Cancel(w: World, caller: Address, id: U256, reply: Reply): Result<World> {
    var _ :- Require(!w.entered, Reentrant);
    var _ :- Require(id < |w.auctions|, NoSuchAuction);
    var a := w.auctions[id];
    var _ :- Require(caller == a.seller, NotSeller);
    var _ :- Require(a.phase == Open, AuctionNotOpen);
    var _ :- Require(a.bidCount == 0, BidsExist);
    SendBack(w, id, reply)
  }

  ghost function SellFor(w: World, id: nat, winner: Address, price: U256, paying: Reply,
                         releasing: Reply): Result<World>
    requires id < |w.auctions|
  {
    var sold := w.auctions[id].(phase := Settled, winner := winner, clearingPrice := price);
    var w1 :- Pay(SetAuction(Enter(w), id, sold), sold.payToken, winner, sold.seller, price, paying);
    var w2 :- Release(w1, id, sold, winner, releasing);
    Ok(Emit(Leave(w2), AuctionSettled(id, winner, price)))
  }

  /** `settle`, with any authenticated result at all. */
  ghost function Conclude(w: World, r: Codec.CloseResult, paying: Reply, releasing: Reply): Result<World> {
    var _ :- Require(!w.entered, Reentrant);
    var id := r.auctionId;
    var _ :- Require(id < |w.auctions|, NoSuchAuction);
    var _ :- Require(w.auctions[id].phase == Closing, AuctionNotClosing);
    if r.winner == ZERO_ADDRESS then SendBack(w, id, releasing)
    else
      var _ :- Require(r.clearingPrice >= w.auctions[id].reservePrice, BelowReserve);
      SellFor(w, id, r.winner, r.clearingPrice, paying, releasing)
  }

  datatype Move = Move(tx: Tx, paying: Reply, lot: Reply)

  ghost function Outcome(w: World, m: Move): Result<World> {
    match m.tx.call
    case Create(_, _, _, _, _, _, _, _) => Create(w, m.tx.caller, m.tx.now, m.tx.call, m.lot)
    case Cancel(id) => Cancel(w, m.tx.caller, id, m.lot)
    case SettleWith(r, sig) =>
      var _ :- Require(!w.entered, Reentrant);
      var _ :- Require(w.teeAddress != ZERO_ADDRESS, TeeNotSet);
      var _ :- Require(r.status == 1, TeeReportedFailure);
      var signer :- Codec.SignerOf(w.chain, r, sig);
      var _ :- Require(signer == w.teeAddress, BadSignature);
      var result :- Codec.UnpackResult(r.data);
      var _ :- Require(result.contractAddr == w.self, NotForThisContract);
      Conclude(w, result, m.paying, m.lot)
    case _ => Apply(w, m.tx)
  }

  ghost function Act(w: World, m: Move): World {
    var r := Outcome(w, m);
    if r.Ok? then r.value else w
  }

  ghost function Acts(w: World, moves: seq<Move>): World {
    if moves == [] then w else Act(Acts(w, moves[..|moves| - 1]), moves[|moves| - 1])
  }

  predicate OutsideReply(w: World, reply: Reply) { OutsideRun(w, reply.before) && OutsideRun(w, reply.after) }

  /** Neither the caller nor anything called back is the auction contract itself. */
  predicate FromOutside(w: World, m: Move) {
    Outside(w, m.tx) && OutsideReply(w, m.paying) && OutsideReply(w, m.lot)
  }

  // ---------------------------------------------------------------- what stays in escrow

  /** `claims` are the auctions, with those whose lot is in a misbehaving token counted as over. */
  ghost predicate ClaimsOf(w: World, claims: seq<Auction>) {
    && |claims| == |w.auctions|
    && forall i :: 0 <= i < |claims| ==>
         && SameLot(claims[i], w.auctions[i])
         && (Live(claims[i]) <==> Live(w.auctions[i]) && Behaves(w, w.auctions[i].lotKind, w.auctions[i].lotToken))
  }

  ghost predicate EscrowedBy(w: World, claims: seq<Auction>) {
    ClaimsOf(w, claims) && Backed(w, claims) && SellersOutside(w)
  }

  ghost predicate HonestEscrow(self: Address, w: World) {
    w.self == self && !w.entered && exists claims :: EscrowedBy(w, claims)
  }

  // ---------------------------------------------------------------- callbacks

  /** `w1` has the same tokens in existence and the same lots, live or not, as `w`. */
  ghost predicate SameLots(w: World, w1: World) {
    && w1.self == w.self && w1.entered == w.entered
    && w1.nfts.Keys == w.nfts.Keys && w1.coins.Keys == w.coins.Keys
    && |w1.auctions| == |w.auctions|
    && forall i :: 0 <= i < |w.auctions| ==>
         SameLot(w.auctions[i], w1.auctions[i]) && Live(w.auctions[i]) == Live(w1.auctions[i])
         && w1.auctions[i].seller == w.auctions[i].seller
  }

  lemma {:induction false} TokenCallKeepsLots(w: World, tx: Tx)
    requires (tx.call.OnNft? || tx.call.OnCoin?) && Apply(w, tx).Ok?
    ensures SameLots(w, Apply(w, tx).value)
  {
  }

  lemma {:induction false} TokenCallKeepsBacking(w: World, claims: seq<Auction>, tx: Tx)
    requires Backed(w, claims) && Outside(w, tx) && (tx.call.OnNft? || tx.call.OnCoin?) && Apply(w, tx).Ok?
    ensures Backed(Apply(w, tx).value, claims)
  {
    match tx.call {
      case OnNft(token, op) =>
        OutsiderCannotMoveNft(w.self, w.nfts[token], tx.caller, op);
        NftUntouched(w, claims, token, Erc721.Do(w.nfts[token], tx.caller, op).value);
      case OnCoin(token, op) =>
        OutsiderCannotMoveCoins(w.self, w.coins[token], tx.caller, op);
        CoinsUntouched(w, claims, token, Erc20.Do(w.coins[token], tx.caller, op).value);
    }
  }

  predicate IsQuiet(c: Call) { c.Bid? || c.Close? || c.SetTee? }

  lemma {:induction false} QuietCallMovesNothing(w: World, tx: Tx)
    requires IsQuiet(tx.call) && Apply(w, tx).Ok?
    ensures SameLots(w, Apply(w, tx).value) && Apply(w, tx).value.nfts == w.nfts && Apply(w, tx).value.coins == w.coins
  {
    ApplyHasShape(w, tx);
  }

  lemma {:induction false} CallKeepsBacking(w: World, claims: seq<Auction>, tx: Tx)
    requires Backed(w, claims) && Outside(w, tx) && (IsQuiet(tx.call) || tx.call.OnNft? || tx.call.OnCoin?)
    ensures Apply(w, tx).Ok? ==> Backed(Apply(w, tx).value, claims) && SameLots(w, Apply(w, tx).value)
  {
    if Apply(w, tx).Ok? {
      if IsQuiet(tx.call) {
        QuietCallMovesNothing(w, tx);
        OtherLedgersKeepBacking(w, Apply(w, tx).value, claims);
      } else {
        TokenCallKeepsBacking(w, claims, tx);
        TokenCallKeepsLots(w, tx);
      }
    }
  }

  /** While the guard is up, what gets through are bids, closes, registrations and token calls. */
  lemma {:induction false} GuardStopsTheRest(w: World, tx: Tx)
    requires w.entered && Apply(w, tx).Ok?
    ensures IsQuiet(tx.call) || tx.call.OnNft? || tx.call.OnCoin?
  {
  }

  lemma {:induction false} CallbackKeepsBacking(w: World, claims: seq<Auction>, tx: Tx)
    requires w.entered && Backed(w, claims) && Outside(w, tx)
    ensures Backed(Step(w, tx), claims) && SameLots(w, Step(w, tx))
  {
    if Apply(w, tx).Ok? {
      GuardStopsTheRest(w, tx);
      CallKeepsBacking(w, claims, tx);
    }
  }

  lemma {:induction false} CallbacksKeepBacking(w: World, claims: seq<Auction>, txs: seq<Tx>)
    requires w.entered && Backed(w, claims) && OutsideRun(w, txs)
    ensures Backed(Run(w, txs), claims) && SameLots(w, Run(w, txs))
  {
    if txs == [] {
    } else {
      var n := |txs| - 1;
      CallbacksKeepBacking(w, claims, txs[..n]);
      assert txs[n] in txs;
      CallbackKeepsBacking(Run(w, txs[..n]), claims, txs[n]);
    }
  }

  lemma {:induction false} SameLotsChain(w: World, w1: World, w2: World)
    requires SameLots(w, w1) && SameLots(w1, w2)
    ensures SameLots(w, w2)
  {
  }

  lemma {:induction false} CallOutKeepsBacking(w: World, claims: seq<Auction>, reply: Reply)
    requires w.entered && Backed(w, claims) && OutsideReply(w, reply)
    ensures CallOut(w, reply).Ok? ==> Backed(CallOut(w, reply).value, claims) && SameLots(w, CallOut(w, reply).value)
  {
    CallbacksKeepBacking(w, claims, reply.before);
    CallbacksKeepBacking(Run(w, reply.before), claims, reply.after);
    SameLotsChain(w, Run(w, reply.before), Run(Run(w, reply.before), reply.after));
  }

  /** A transfer that leads from lots to the same lots, with callbacks before and after it. */
  lemma {:induction false} AroundTransfer(w: World, w1: World, w2: World, claims: seq<Auction>, claims1: seq<Auction>,
                                          reply: Reply)
    requires w1 == Run(w, reply.before) && SameLots(w, w1) && SameLots(w1, w2)
    requires w.entered && Backed(w2, claims1) && OutsideReply(w, reply)
    ensures Backed(Run(w2, reply.after), claims1) && SameLots(w, Run(w2, reply.after))
  {
    CallbacksKeepBacking(w2, claims1, reply.after);
    SameLotsChain(w, w1, w2);
    SameLotsChain(w, w2, Run(w2, reply.after));
  }

  // ---------------------------------------------------------------- the two legs and the pull

  lemma {:induction false} MovingKeepsLots(w: World, a: Auction, to: Address)
    ensures MoveLot(w, a, to).Ok? ==> SameLots(w, MoveLot(w, a, to).value)
  {
  }

  lemma {:induction false} PaymentKeepsLots(w: World, token: Address, from: Address, to: Address, amount: U256)
    ensures PullCoins(w, token, from, to, amount).Ok? ==> SameLots(w, PullCoins(w, token, from, to, amount).value)
  {
  }

  lemma {:induction false} NftMoveKeepsLots(w: World, token: Address, from: Address, to: Address, id: U256)
    ensures MoveNft(w, token, from, to, id).Ok? ==> SameLots(w, MoveNft(w, token, from, to, id).value)
  {
  }

  lemma {:induction false} MovingSucceeds(w: World, claims: seq<Auction>, id: nat, a: Auction, to: Address,
                                          done: Auction)
    requires Backed(w, claims) && id < |claims| && Live(claims[id]) && SameLot(claims[id], a)
    requires to != ZERO_ADDRESS && !Live(done)
    ensures MoveLot(w, a, to).Ok? && Backed(MoveLot(w, a, to).value, claims[id := done])
  {
    ReleaseSucceeds(w, claims, id, a, to, done);
    OtherLedgersKeepBacking(ReleaseLot(w, id, a, to).value, MoveLot(w, a, to).value, claims[id := done]);
  }

  /** The transfer of a lot that leaves, between its callbacks. */
  lemma {:induction false} LotLeaves(w: World, w1: World, w2: World, claims: seq<Auction>, id: nat, a: Auction,
                                     to: Address, reply: Reply,
                                     done: Auction)
    requires w.entered && OutsideReply(w, reply) && w1 == Run(w, reply.before) && SameLots(w, w1) && Backed(w1, claims)
    requires id < |claims| && SameLot(claims[id], a) && Live(claims[id]) && !Live(done) && to != ZERO_ADDRESS
    requires MoveLot(w1, a, to) == Ok(w2)
    ensures var w3 := Emit(Run(w2, reply.after), LotReleased(id, to));
            Backed(w3, claims[id := done]) && SameLots(w, w3)
  {
    MovingSucceeds(w1, claims, id, a, to, done);
    MovingKeepsLots(w1, a, to);
    AroundTransfer(w, w1, w2, claims, claims[id := done], reply);
    var w3 := Run(w2, reply.after);
    OtherLedgersKeepBacking(w3, Emit(w3, LotReleased(id, to)), claims[id := done]);
  }

  lemma {:induction false} MovingIsPossible(w: World, claims: seq<Auction>, id: nat, a: Auction, to: Address)
    requires Backed(w, claims) && id < |claims| && Live(claims[id]) && SameLot(claims[id], a) && to != ZERO_ADDRESS
    ensures MoveLot(w, a, to).Ok?
  {
    MovingSucceeds(w, claims, id, a, to, a.(phase := Cancelled));
  }

  lemma {:induction false} ReleasedLotMoved(w: World, id: nat, a: Auction, to: Address, reply: Reply, w2: World)
    requires Behaves(w, a.lotKind, a.lotToken) && MoveLot(Run(w, reply.before), a, to) == Ok(w2)
    ensures Release(w, id, a, to, reply) == Ok(Emit(Run(w2, reply.after), LotReleased(id, to)))
  {
  }

  lemma {:induction false} HonestLegReleases(w: World, claims: seq<Auction>, id: nat, a: Auction, to: Address,
                                             reply: Reply, done: Auction)
    requires w.entered && Backed(w, claims) && OutsideReply(w, reply) && to != ZERO_ADDRESS
    requires id < |claims| && SameLot(claims[id], a) && Live(claims[id]) && !Live(done)
    requires Behaves(w, a.lotKind, a.lotToken)
    ensures Release(w, id, a, to, reply).Ok?
    ensures var w1 := Release(w, id, a, to, reply).value; Backed(w1, claims[id := done]) && SameLots(w, w1)
  {
    CallbacksKeepBacking(w, claims, reply.before);
    var w1 := Run(w, reply.before);
    MovingIsPossible(w1, claims, id, a, to);
    var w2 := MoveLot(w1, a, to).value;
    ReleasedLotMoved(w, id, a, to, reply, w2);
    LotLeaves(w, w1, w2, claims, id, a, to, reply, done);
  }

  lemma {:induction false} HostileLegReleases(w: World, claims: seq<Auction>, id: nat, a: Auction, to: Address,
                                              reply: Reply,
                                              done: Auction)
    requires w.entered && Backed(w, claims) && OutsideReply(w, reply)
    requires id < |claims| && SameLot(claims[id], done) && !Live(claims[id]) && !Live(done)
    requires !Behaves(w, a.lotKind, a.lotToken)
    ensures Release(w, id, a, to, reply).Ok? ==>
              var w1 := Release(w, id, a, to, reply).value; Backed(w1, claims[id := done]) && SameLots(w, w1)
  {
    if reply.succeeds {
      CallOutKeepsBacking(w, claims, reply);
      var w1 := CallOut(w, reply).value;
      BackingIgnoresOtherFields(w1, claims, id, done);
      OtherLedgersKeepBacking(w1, Emit(w1, LotReleased(id, to)), claims[id := done]);
    }
  }

  /** A lot in a well-behaved token is always released; either way the other lots stay backed. */
  lemma {:induction false} LegReleases(w: World, claims: seq<Auction>, id: nat, a: Auction, to: Address, reply: Reply,
                                       done: Auction)
    requires w.entered && Backed(w, claims) && OutsideReply(w, reply) && to != ZERO_ADDRESS
    requires id < |claims| && SameLot(claims[id], a) && SameLot(claims[id], done) && !Live(done)
    requires Live(claims[id]) <==> Behaves(w, a.lotKind, a.lotToken)
    ensures Behaves(w, a.lotKind, a.lotToken) ==> Release(w, id, a, to, reply).Ok?
    ensures Release(w, id, a, to, reply).Ok? ==>
              var w1 := Release(w, id, a, to, reply).value; Backed(w1, claims[id := done]) && SameLots(w, w1)
  {
    if Behaves(w, a.lotKind, a.lotToken) {
      HonestLegReleases(w, claims, id, a, to, reply, done);
    } else {
      HostileLegReleases(w, claims, id, a, to, reply, done);
    }
  }

  lemma {:induction false} LegPays(w: World, claims: seq<Auction>, token: Address, from: Address, to: Address,
                                   amount: U256, reply: Reply)
    requires w.entered && Backed(w, claims) && OutsideReply(w, reply) && to != w.self
    ensures Pay(w, token, from, to, amount, reply).Ok? ==>
              var w1 := Pay(w, token, from, to, amount, reply).value; Backed(w1, claims) && SameLots(w, w1)
  {
    if token in w.coins {
      CallbacksKeepBacking(w, claims, reply.before);
      var w1 := Run(w, reply.before);
      PaymentKeepsBacking(w1, claims, token, from, to, amount);
      PaymentKeepsLots(w1, token, from, to, amount);
      var moved := PullCoins(w1, token, from, to, amount);
      if moved.Ok? {
        AroundTransfer(w, w1, moved.value, claims, claims, reply);
      }
    } else {
      CallOutKeepsBacking(w, claims, reply);
    }
  }

  lemma {:induction false} DeadClaimAddsNothing(w: World, claims: seq<Auction>, d: Auction)
    requires Backed(w, claims) && !Live(d)
    ensures Backed(w, claims + [d])
  {
    var all := claims + [d];
    forall t | t in w.coins ensures Erc20.BalanceOf(w.coins[t], w.self) >= Owed(all, t) {
      OwedWithOneMore(claims, d, t);
    }
    assert forall i :: 0 <= i < |claims| ==> all[i] == claims[i];
  }

  lemma {:induction false} CoinClaimIsCovered(w: World, claims: seq<Auction>, a: Auction)
    requires Backed(w, claims) && Live(a) && a.lotKind == ERC20 && a.lotToken in w.coins
    requires Erc20.BalanceOf(w.coins[a.lotToken], w.self) >= Owed(claims, a.lotToken) + a.lotAmount
    ensures Backed(w, claims + [a])
  {
    var all := claims + [a];
    forall t | t in w.coins ensures Erc20.BalanceOf(w.coins[t], w.self) >= Owed(all, t) {
      OwedWithOneMore(claims, a, t);
    }
    assert forall i :: 0 <= i < |claims| ==> all[i] == claims[i];
  }

  /** What a claim on `a` counts for: nothing if its token misbehaves. */
  function Trusted(w: World, a: Auction): Auction {
    if Behaves(w, a.lotKind, a.lotToken) then a else a.(phase := Cancelled)
  }

  lemma {:induction false} NftMovesIn(w: World, claims: seq<Auction>, caller: Address, a: Auction)
    requires Backed(w, claims) && caller != w.self && caller != ZERO_ADDRESS && LiveNft(a)
    requires MoveNft(w, a.lotToken, caller, w.self, a.lotTokenId).Ok?
    ensures Backed(MoveNft(w, a.lotToken, caller, w.self, a.lotTokenId).value, claims + [a])
  {
    NftCanArrive(w.self, w.nfts[a.lotToken], caller, a.lotTokenId);
    var w1 := MoveNft(w, a.lotToken, caller, w.self, a.lotTokenId).value;
    NftArrives(w, claims, a, w1.nfts[a.lotToken]);
    assert w1 == WithNft(w, a.lotToken, w1.nfts[a.lotToken]);
  }

  /** The transfer of an NFT that arrives, between its callbacks. */
  lemma {:induction false} NftComes(w: World, w1: World, w2: World, claims: seq<Auction>, caller: Address, a: Auction,
                                    reply: Reply)
    requires w.entered && OutsideReply(w, reply) && w1 == Run(w, reply.before) && SameLots(w, w1) && Backed(w1, claims)
    requires caller != w.self && caller != ZERO_ADDRESS && LiveNft(a)
    requires MoveNft(w1, a.lotToken, caller, w1.self, a.lotTokenId) == Ok(w2)
    ensures Backed(Run(w2, reply.after), claims + [a]) && SameLots(w, Run(w2, reply.after))
  {
    NftMovesIn(w1, claims, caller, a);
    NftMoveKeepsLots(w1, a.lotToken, caller, w1.self, a.lotTokenId);
    AroundTransfer(w, w1, w2, claims, claims + [a], reply);
  }

  lemma {:induction false} PulledNftMoved(w: World, caller: Address, token: Address, id: U256, reply: Reply)
    requires PullNft(w, caller, token, id, reply).Ok?
    ensures var moved := MoveNft(Run(w, reply.before), token, caller, w.self, id);
            moved.Ok? && PullNft(w, caller, token, id, reply).value.0 == Run(moved.value, reply.after)
  {
  }

  lemma {:induction false} NftPulled(w: World, claims: seq<Auction>, caller: Address, a: Auction, reply: Reply)
    requires w.entered && Backed(w, claims) && OutsideReply(w, reply) && caller != w.self && caller != ZERO_ADDRESS
    requires LiveNft(a) && PullNft(w, caller, a.lotToken, a.lotTokenId, reply).Ok?
    ensures var w1 := PullNft(w, caller, a.lotToken, a.lotTokenId, reply).value.0;
            Backed(w1, claims + [a]) && SameLots(w, w1)
  {
    CallbacksKeepBacking(w, claims, reply.before);
    PulledNftMoved(w, caller, a.lotToken, a.lotTokenId, reply);
    var w1 := Run(w, reply.before);
    NftComes(w, w1, MoveNft(w1, a.lotToken, caller, w.self, a.lotTokenId).value, claims, caller, a, reply);
  }

  lemma {:induction false} CoinsMoveIn(w: World, claims: seq<Auction>, caller: Address, token: Address, amount: U256)
    requires Backed(w, claims) && caller != w.self && PullCoins(w, token, caller, w.self, amount).Ok?
    ensures Backed(PullCoins(w, token, caller, w.self, amount).value, claims)
  {
    CoinsCanBePulled(w.self, w.coins[token], caller, w.self, amount);
    var w1 := PullCoins(w, token, caller, w.self, amount).value;
    CoinsUntouched(w, claims, token, w1.coins[token]);
    assert w1 == WithCoin(w, token, w1.coins[token]);
  }

  lemma {:induction false} CoinPulled(w: World, claims: seq<Auction>, caller: Address, a: Auction, amount: U256,
                                      reply: Reply)
    requires w.entered && Backed(w, claims) && OutsideReply(w, reply) && caller != w.self && caller != ZERO_ADDRESS
    requires Live(a) && a.lotKind == ERC20 && a.lotToken in w.coins
    requires PullCoin(w, caller, a.lotToken, amount, reply).Ok?
    requires PullCoin(w, caller, a.lotToken, amount, reply).value.1 == a.lotAmount
    ensures var w1 := PullCoin(w, caller, a.lotToken, amount, reply).value.0;
            Backed(w1, claims + [a]) && SameLots(w, w1)
  {
    CallbacksKeepBacking(w, claims, reply.before);
    var w1 := Run(w, reply.before);
    CoinsMoveIn(w1, claims, caller, a.lotToken, amount);
    PaymentKeepsLots(w1, a.lotToken, caller, w.self, amount);
    var w2 := PullCoins(w1, a.lotToken, caller, w.self, amount).value;
    AroundTransfer(w, w1, w2, claims, claims, reply);
    CoinClaimIsCovered(Run(w2, reply.after), claims, a);
  }

  lemma {:induction false} LegPulls(w: World, claims: seq<Auction>, caller: Address, a: Auction, amount: U256,
                                    reply: Reply)
    requires w.entered && Backed(w, claims) && OutsideReply(w, reply)
    requires caller != w.self && caller != ZERO_ADDRESS && Live(a)
    requires Pull(w, caller, a.lotKind, a.lotToken, a.lotTokenId, amount, reply).Ok?
    requires Pull(w, caller, a.lotKind, a.lotToken, a.lotTokenId, amount, reply).value.1 == a.lotAmount
    ensures var w1 := Pull(w, caller, a.lotKind, a.lotToken, a.lotTokenId, amount, reply).value.0;
            Backed(w1, claims + [Trusted(w, a)]) && SameLots(w, w1)
  {
    if !Behaves(w, a.lotKind, a.lotToken) {
      CallOutKeepsBacking(w, claims, reply);
      DeadClaimAddsNothing(CallOut(w, reply).value, claims, Trusted(w, a));
    } else if a.lotKind == ERC721 {
      NftPulled(w, claims, caller, a, reply);
    } else {
      CoinPulled(w, claims, caller, a, amount, reply);
    }
  }

  // ---------------------------------------------------------------- the entry points

  /** `w1` is `w` for everything the escrow depends on. */
  ghost predicate SameHoldings(w: World, w1: World) {
    w1.self == w.self && w1.nfts == w.nfts && w1.coins == w.coins && w1.auctions == w.auctions
  }

  lemma {:induction false} LotsCarryClaims(w: World, w1: World, w2: World, claims: seq<Auction>)
    requires ClaimsOf(w, claims) && SellersOutside(w) && SameLots(w, w1) && Backed(w1, claims)
    requires SameHoldings(w1, w2) && !w2.entered
    ensures HonestEscrow(w.self, w2)
  {
    OtherLedgersKeepBacking(w1, w2, claims);
    assert EscrowedBy(w2, claims);
  }

  lemma {:induction false} MarkedClaims(w: World, claims: seq<Auction>, id: nat, done: Auction)
    requires EscrowedBy(w, claims) && id < |w.auctions| && SameLot(w.auctions[id], done) && !Live(done)
    requires done.seller == w.auctions[id].seller
    ensures var marked := SetAuction(Enter(w), id, done);
            ClaimsOf(marked, claims[id := done]) && SellersOutside(marked) && Backed(marked, claims)
  {
    OtherLedgersKeepBacking(w, SetAuction(Enter(w), id, done), claims);
  }

  lemma {:induction false} SendBackKeepsHonestEscrow(w: World, id: nat, reply: Reply)
    requires HonestEscrow(w.self, w) && id < |w.auctions| && Live(w.auctions[id]) && OutsideReply(w, reply)
    ensures Behaves(w, w.auctions[id].lotKind, w.auctions[id].lotToken) ==> SendBack(w, id, reply).Ok?
    ensures SendBack(w, id, reply).Ok? ==> HonestEscrow(w.self, SendBack(w, id, reply).value)
  {
    var claims :| EscrowedBy(w, claims);
    var a := w.auctions[id];
    var done := a.(phase := Cancelled);
    var marked := SetAuction(Enter(w), id, done);
    MarkedClaims(w, claims, id, done);
    LegReleases(marked, claims, id, a, a.seller, reply, done);
    var released := Release(marked, id, a, a.seller, reply);
    if released.Ok? {
      LotsCarryClaims(marked, released.value, Emit(Leave(released.value), AuctionCancelled(id)), claims[id := done]);
    }
  }

  /** The lot leg of a sale, after the payment leg left the claims backed. */
  lemma {:induction false} LotLegKeepsHonestEscrow(marked: World, paid: World, claims: seq<Auction>, id: nat,
                                                   sold: Auction, releasing: Reply, e: Event)
    requires id < |claims| && SameLot(claims[id], sold) && !Live(sold) && sold.winner != ZERO_ADDRESS
    requires Live(claims[id]) <==> Behaves(marked, sold.lotKind, sold.lotToken)
    requires ClaimsOf(marked, claims[id := sold]) && SellersOutside(marked) && marked.entered && SameLots(marked, paid)
    requires Backed(paid, claims) && OutsideReply(paid, releasing)
    ensures var released := Release(paid, id, sold, sold.winner, releasing);
            released.Ok? ==> HonestEscrow(marked.self, Emit(Leave(released.value), e))
  {
    LegReleases(paid, claims, id, sold, sold.winner, releasing, sold);
    var released := Release(paid, id, sold, sold.winner, releasing);
    if released.Ok? {
      SameLotsChain(marked, paid, released.value);
      LotsCarryClaims(marked, released.value, Emit(Leave(released.value), e), claims[id := sold]);
    }
  }

  lemma {:induction false} SellForKeepsHonestEscrow(w: World, id: nat, winner: Address, price: U256, paying: Reply,
                                                    releasing: Reply)
    requires HonestEscrow(w.self, w) && id < |w.auctions| && Live(w.auctions[id]) && winner != ZERO_ADDRESS
    requires OutsideReply(w, paying) && OutsideReply(w, releasing)
    ensures SellFor(w, id, winner, price, paying, releasing).Ok? ==>
              HonestEscrow(w.self, SellFor(w, id, winner, price, paying, releasing).value)
  {
    var claims :| EscrowedBy(w, claims);
    var sold := w.auctions[id].(phase := Settled, winner := winner, clearingPrice := price);
    var marked := SetAuction(Enter(w), id, sold);
    MarkedClaims(w, claims, id, sold);
    LegPays(marked, claims, sold.payToken, winner, sold.seller, price, paying);
    var paid := Pay(marked, sold.payToken, winner, sold.seller, price, paying);
    if paid.Ok? {
      LotLegKeepsHonestEscrow(marked, paid.value, claims, id, sold, releasing, AuctionSettled(id, winner, price));
    }
  }

  lemma {:induction false} NewClaim(w: World, w1: World, w2: World, claims: seq<Auction>, a: Auction)
    requires ClaimsOf(w, claims) && SellersOutside(w) && SameLots(w, w1) && Backed(w1, claims + [Trusted(w, a)])
    requires a.seller != w.self && a.seller != ZERO_ADDRESS
    requires w2.self == w1.self && w2.nfts == w1.nfts && w2.coins == w1.coins && w2.auctions == w1.auctions + [a]
    requires !w2.entered
    ensures HonestEscrow(w.self, w2)
  {
    OtherLedgersKeepBacking(w1, w2, claims + [Trusted(w, a)]);
    assert EscrowedBy(w2, claims + [Trusted(w, a)]);
  }

  lemma {:induction false} CreatePushes(w: World, caller: Address, now: U64, c: Call, reply: Reply)
    requires c.Create? && CreateInside(w, caller, now, c, reply).Ok?
    ensures Pull(w, caller, c.kind, c.lotToken, c.lotTokenId, c.lotAmount, reply).Ok?
    ensures var (w1, escrowed) := Pull(w, caller, c.kind, c.lotToken, c.lotTokenId, c.lotAmount, reply).value;
            var w2 := CreateInside(w, caller, now, c, reply).value;
            && w2.self == w1.self && w2.nfts == w1.nfts && w2.coins == w1.coins
            && w2.auctions == w1.auctions + [Pushed(caller, c, escrowed)]
  {
  }

  lemma {:induction false} CreateInsideKeepsHonestEscrow(w: World, claims: seq<Auction>, caller: Address, now: U64,
                                                         c: Call, reply: Reply)
    requires w.entered && EscrowedBy(w, claims) && c.Create? && caller != w.self && caller != ZERO_ADDRESS
    requires OutsideReply(w, reply) && CreateInside(w, caller, now, c, reply).Ok?
    ensures HonestEscrow(w.self, Leave(CreateInside(w, caller, now, c, reply).value))
  {
    CreatePushes(w, caller, now, c, reply);
    var (w1, escrowed) := Pull(w, caller, c.kind, c.lotToken, c.lotTokenId, c.lotAmount, reply).value;
    var a := Pushed(caller, c, escrowed);
    LegPulls(w, claims, caller, a, c.lotAmount, reply);
    NewClaim(w, w1, Leave(CreateInside(w, caller, now, c, reply).value), claims, a);
  }

  lemma {:induction false} CreateKeepsHonestEscrow(w: World, caller: Address, now: U64, c: Call, reply: Reply)
    requires HonestEscrow(w.self, w) && c.Create? && caller != w.self && caller != ZERO_ADDRESS
    requires OutsideReply(w, reply)
    ensures Create(w, caller, now, c, reply).Ok? ==> HonestEscrow(w.self, Create(w, caller, now, c, reply).value)
  {
    var claims :| EscrowedBy(w, claims);
    OtherLedgersKeepBacking(w, Enter(w), claims);
    if CreateInside(Enter(w), caller, now, c, reply).Ok? {
      CreateInsideKeepsHonestEscrow(Enter(w), claims, caller, now, c, reply);
    }
  }

  lemma {:induction false} ResultKeepsHonestEscrow(w: World, r: Codec.CloseResult, paying: Reply, releasing: Reply)
    requires HonestEscrow(w.self, w) && OutsideReply(w, paying) && OutsideReply(w, releasing)
    ensures Conclude(w, r, paying, releasing).Ok? ==> HonestEscrow(w.self, Conclude(w, r, paying, releasing).value)
  {
    if Conclude(w, r, paying, releasing).Ok? {
      if r.winner == ZERO_ADDRESS {
        SendBackKeepsHonestEscrow(w, r.auctionId, releasing);
      } else {
        SellForKeepsHonestEscrow(w, r.auctionId, r.winner, r.clearingPrice, paying, releasing);
      }
    }
  }

  lemma {:induction false} OtherCallKeepsHonestEscrow(w: World, tx: Tx)
    requires HonestEscrow(w.self, w) && Outside(w, tx) && Apply(w, tx).Ok?
    requires IsQuiet(tx.call) || tx.call.OnNft? || tx.call.OnCoin?
    ensures HonestEscrow(w.self, Apply(w, tx).value)
  {
    var claims :| EscrowedBy(w, claims);
    CallKeepsBacking(w, claims, tx);
    LotsCarryClaims(w, Apply(w, tx).value, Apply(w, tx).value, claims);
  }

  /** Custody against misbehaving tokens, one step: whatever such a token calls back, in either leg or
      while a lot is pulled, lots held in well-behaved tokens stay in escrow. */
  lemma {:induction false} ActKeepsHonestEscrow(w: World, m: Move)
    requires HonestEscrow(w.self, w) && FromOutside(w, m)
    ensures HonestEscrow(w.self, Act(w, m))
  {
    if Outcome(w, m).Ok? {
      match m.tx.call {
        case Create(_, _, _, _, _, _, _, _) => CreateKeepsHonestEscrow(w, m.tx.caller, m.tx.now, m.tx.call, m.lot);
        case Cancel(id) => SendBackKeepsHonestEscrow(w, id, m.lot);
        case SettleWith(r, _) => ResultKeepsHonestEscrow(w, Codec.UnpackResult(r.data).value, m.paying, m.lot);
        case _ => OtherCallKeepsHonestEscrow(w, m.tx);
      }
    }
  }

  /** Claims and records agree on what is owed in a well-behaved coin. */
  lemma {:induction false} ClaimsOwe(w: World, auctions: seq<Auction>, claims: seq<Auction>, t: Address)
    requires t in w.coins && |claims| == |auctions|
    requires forall i :: 0 <= i < |claims| ==>
               && SameLot(claims[i], auctions[i])
               && (Live(claims[i]) <==> Live(auctions[i]) && Behaves(w, auctions[i].lotKind, auctions[i].lotToken))
    ensures Owed(claims, t) == Owed(auctions, t)
  {
    if claims == [] {
    } else {
      var n := |claims| - 1;
      ClaimsOwe(w, auctions[..n], claims[..n], t);
    }
  }

  predicate HonestNft(w: World, a: Auction) { LiveNft(a) && a.lotToken in w.nfts }

  /** What the invariant says in terms of the records alone: well-behaved coins cover all live lots of
      them, live lots in well-behaved NFTs are held one by one, any of these lots can be sent to anyone,
      and nobody else can move them. */
  ghost predicate HonestLotsHeld(w: World) {
    && (forall t :: t in w.coins ==> Erc20.BalanceOf(w.coins[t], w.self) >= Owed(w.auctions, t))
    && (forall i :: 0 <= i < |w.auctions| && HonestNft(w, w.auctions[i]) ==>
          Erc721.OwnerAt(w.nfts[w.auctions[i].lotToken], w.auctions[i].lotTokenId) == w.self)
    && (forall i, j :: 0 <= i < j < |w.auctions| && HonestNft(w, w.auctions[i]) && HonestNft(w, w.auctions[j]) ==>
          w.auctions[i].lotToken != w.auctions[j].lotToken || w.auctions[i].lotTokenId != w.auctions[j].lotTokenId)
    && (forall i, to: Address :: 0 <= i < |w.auctions| && Live(w.auctions[i]) && to != ZERO_ADDRESS
                                 && Behaves(w, w.auctions[i].lotKind, w.auctions[i].lotToken) ==>
          MoveLot(w, w.auctions[i], to).Ok?)
    && TokensSafe(w)
  }

  lemma {:induction false} HonestEscrowHoldsLots(w: World)
    requires HonestEscrow(w.self, w)
    ensures HonestLotsHeld(w)
  {
    var claims :| EscrowedBy(w, claims);
    forall t | t in w.coins ensures Erc20.BalanceOf(w.coins[t], w.self) >= Owed(w.auctions, t) {
      ClaimsOwe(w, w.auctions, claims, t);
    }
    assert forall i :: 0 <= i < |w.auctions| && HonestNft(w, w.auctions[i]) ==> LiveNft(claims[i]);
    forall i, to: Address | 0 <= i < |w.auctions| && Live(w.auctions[i]) && to != ZERO_ADDRESS
                            && Behaves(w, w.auctions[i].lotKind, w.auctions[i].lotToken)
      ensures MoveLot(w, w.auctions[i], to).Ok?
    {
      MovingSucceeds(w, claims, i, w.auctions[i], to, w.auctions[i].(phase := Cancelled));
    }
  }

  lemma {:induction false} HonestEscrowInEveryRun(w: World, moves: seq<Move>)
    requires Fresh(w) && forall m :: m in moves ==> FromOutside(w, m)
    ensures HonestEscrow(w.self, Acts(w, moves))
  {
    if moves == [] {
      assert EscrowedBy(w, []);
    } else {
      var n := |moves| - 1;
      assert forall m :: m in moves[..n] ==> m in moves;
      HonestEscrowInEveryRun(w, moves[..n]);
      assert moves[n] in moves;
      ActKeepsHonestEscrow(Acts(w, moves[..n]), moves[n]);
    }
  }

  /** Main result. Over every run from deployment in which any lot or pay token may misbehave and call
      back at will: in every well-behaved ERC-20 the contract's balance covers all live lots of it,
      every live lot in a well-behaved ERC-721 is held by the contract, and nobody else can move them. */
  lemma {:induction false} HonestLotsSurviveHostileTokens(w: World, moves: seq<Move>)
    requires Fresh(w) && forall m :: m in moves ==> FromOutside(w, m)
    ensures HonestLotsHeld(Acts(w, moves)) && Acts(w, moves).self == w.self
  {
    HonestEscrowInEveryRun(w, moves);
    HonestEscrowHoldsLots(Acts(w, moves));
  }

  // ---------------------------------------------------------------- the ordinary contract as a case

  lemma {:induction false} ReleaseIgnoresGuard(w: World, id: nat, a: Auction, to: Address)
    ensures Release(Enter(w), id, a, to, SILENT)
         == if !Behaves(w, a.lotKind, a.lotToken) then Ok(Emit(Enter(w), LotReleased(id, to)))
            else if ReleaseLot(w, id, a, to).Ok? then Ok(Enter(ReleaseLot(w, id, a, to).value))
            else ReleaseLot(w, id, a, to)
  {
  }

  lemma {:induction false} PaymentIgnoresGuard(w: World, token: Address, from: Address, to: Address, amount: U256)
    requires token in w.coins
    ensures Pay(Enter(w), token, from, to, amount, SILENT)
         == if PullCoins(w, token, from, to, amount).Ok? then Ok(Enter(PullCoins(w, token, from, to, amount).value))
            else PullCoins(w, token, from, to, amount)
  {
  }

  /** If all tokens of an auction behave and call nothing back, settling here is settling in `Auction`. */
  lemma {:induction false} BehavedSettlementIsOrdinary(w: World, r: Codec.CloseResult)
    requires !w.entered && r.auctionId < |w.auctions|
    requires var a := w.auctions[r.auctionId]; Behaves(w, a.lotKind, a.lotToken) && a.payToken in w.coins
    ensures Conclude(w, r, SILENT, SILENT) == ApplyResult(w, r)
  {
    var id, a := r.auctionId, w.auctions[r.auctionId];
    if r.winner == ZERO_ADDRESS {
      ReleaseIgnoresGuard(SetAuction(w, id, a.(phase := Cancelled)), id, a, a.seller);
    } else {
      var sold := a.(phase := Settled, winner := r.winner, clearingPrice := r.clearingPrice);
      var marked := SetAuction(w, id, sold);
      PaymentIgnoresGuard(marked, sold.payToken, r.winner, sold.seller, r.clearingPrice);
      var paid := PullCoins(marked, sold.payToken, r.winner, sold.seller, r.clearingPrice);
      if paid.Ok? {
        ReleaseIgnoresGuard(paid.value, id, sold, r.winner);
      }
    }
  }

  lemma {:induction false} BehavedPullIsOrdinary(w: World, caller: Address, kind: LotKind, token: Address, id: U256,
                                                 amount: U256)
    requires Behaves(w, kind, token) && caller != w.self && caller != ZERO_ADDRESS && TokensSafe(w)
    ensures Pull(Enter(w), caller, kind, token, id, amount, SILENT)
         == if PullLot(w, caller, kind, token, id, amount).Revert? then
              Revert(PullLot(w, caller, kind, token, id, amount).error)
            else
              var (w1, escrowed) := PullLot(w, caller, kind, token, id, amount).value; Ok((Enter(w1), escrowed))
  {
    if kind == ERC20 {
      CoinsCanBePulled(w.self, w.coins[token], caller, w.self, amount);
    }
  }

  lemma {:induction false} BehavedCreationIsOrdinary(w: World, tx: Tx)
    requires !w.entered && TokensSafe(w) && Outside(w, tx) && tx.call.Create?
             && Behaves(w, tx.call.kind, tx.call.lotToken)
    ensures Create(w, tx.caller, tx.now, tx.call, SILENT) == Apply(w, tx)
  {
    var c := tx.call;
    BehavedPullIsOrdinary(w, tx.caller, c.kind, c.lotToken, c.lotTokenId, c.lotAmount);
    PullLotFrame(w, tx.caller, c.kind, c.lotToken, c.lotTokenId, c.lotAmount);
  }

  lemma {:induction false} BehavedReturnIsOrdinary(w: World, id: nat)
    requires !w.entered && id < |w.auctions| && Behaves(w, w.auctions[id].lotKind, w.auctions[id].lotToken)
    ensures SendBack(w, id, SILENT) == SendHome(w, id)
  {
    var a := w.auctions[id];
    ReleaseIgnoresGuard(SetAuction(w, id, a.(phase := Cancelled)), id, a, a.seller);
  }

  /** All tokens the contract deals with behave. */
  ghost predicate AllBehave(w: World, tx: Tx) {
    && (tx.call.Create? ==> Behaves(w, tx.call.kind, tx.call.lotToken))
    && forall i :: 0 <= i < |w.auctions| ==>
         Behaves(w, w.auctions[i].lotKind, w.auctions[i].lotToken) && w.auctions[i].payToken in w.coins
  }

  /** With well-behaved tokens that call nothing back, every call is the ordinary one, refusals included. */
  lemma {:induction false} BehavedMovesAreOrdinary(w: World, tx: Tx)
    requires !w.entered && TokensSafe(w) && Outside(w, tx) && AllBehave(w, tx)
    ensures Outcome(w, Move(tx, SILENT, SILENT)) == Apply(w, tx)
  {
    match tx.call {
      case Create(_, _, _, _, _, _, _, _) => BehavedCreationIsOrdinary(w, tx);
      case Cancel(id) =>
        if id < |w.auctions| {
          BehavedReturnIsOrdinary(w, id);
        }
      case SettleWith(r, _) =>
        if Codec.UnpackResult(r.data).Ok? && Codec.UnpackResult(r.data).value.auctionId < |w.auctions| {
          BehavedSettlementIsOrdinary(w, Codec.UnpackResult(r.data).value);
        }
      case _ =>
    }
  }
}

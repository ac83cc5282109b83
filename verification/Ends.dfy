/** How a closing auction can end when nothing is assumed of delivery, restarts and registrations: it
    can always be cancelled, it can be sold to exactly the contenders who pay, and which of these
    happens is settled by which signed answer is presented. */
module Ends {
  import opened Types
  import opened Auction
  import opened Frames
  import opened Escrow
  import opened Lifecycle
  import opened Settlement
  import opened Queue
  import opened Winner
  import opened Tee
  import opened Handlers
  import opened Protocol
  import opened Progress
  import opened AnyDelivery
  import opened Replay
  import Codec

  // ---------------------------------------------------------------- every reachable site is ready

  ghost predicate Prepared(s: Site, decrypt: Decrypt) { Reached(s, decrypt) && Escrowed(s.world) }

  ghost predicate SameContract(w: World, w1: World) {
    w1.self == w.self && w1.chain == w.chain && (w.teeAddress != ZERO_ADDRESS ==> w1.teeAddress != ZERO_ADDRESS)
  }

  lemma {:induction false} StepKeepsSomeTee(w: World, tx: Tx)
    requires w.teeAddress != ZERO_ADDRESS
    ensures Step(w, tx).teeAddress != ZERO_ADDRESS
  {
    if tx.call.SetTee? {
      ApplyHasShape(w, tx);
    } else {
      StepKeepsTee(w, tx);
    }
  }

  lemma {:induction false} TurnKeepsPrepared(s: Site, decrypt: Decrypt, t: Turn)
    requires Prepared(s, decrypt) && Allowed(s, t)
    ensures Prepared(Take(s, decrypt, t), decrypt) && SameContract(s.world, Take(s, decrypt, t).world)
  {
    match t {
      case Mine(tx) =>
        MiningKeepsGenuine(s, decrypt, tx);
        StepKeepsDiscipline(s.world, tx);
        StepKeepsEscrow(s.world, tx);
        StepKeepsIdentity(s.world, tx);
        if s.world.teeAddress != ZERO_ADDRESS {
          StepKeepsSomeTee(s.world, tx);
        }
      case Handle(act, actionId, tag) =>
        HandlingKeepsGenuine(s, decrypt, act, actionId, tag);
        DoKeepsCount(s.node, decrypt, act);
      case Restart =>
        EmptyIsCounted();
      case Elsewhere(_, _) =>
    }
  }

  lemma {:induction false} PreparedLater(s: Site, decrypt: Decrypt, turns: seq<Turn>)
    requires Prepared(s, decrypt) && AllAllowed(s, decrypt, turns)
    ensures Prepared(Play(s, decrypt, turns), decrypt) && SameContract(s.world, Play(s, decrypt, turns).world)
  {
    if turns == [] {
    } else {
      var n := |turns| - 1;
      PreparedLater(s, decrypt, turns[..n]);
      TurnKeepsPrepared(Play(s, decrypt, turns[..n]), decrypt, turns[n]);
    }
  }

  lemma {:induction false} PreparedInEveryRun(start: Site, decrypt: Decrypt, turns: seq<Turn>)
    requires AtRest(start) && AllAllowed(start, decrypt, turns)
    ensures Prepared(Play(start, decrypt, turns), decrypt)
  {
    ReachedInEveryRun(start, decrypt, turns);
    WorldIsMined(start, decrypt, turns);
    RunKeepsEscrow(start.world, Mined(turns));
  }

  /** Auction `id` is waiting for a settlement, under a registered TEE. */
  ghost predicate Pending(s: Site, decrypt: Decrypt, id: U256) {
    && Prepared(s, decrypt) && s.world.teeAddress != ZERO_ADDRESS
    && id < |s.world.auctions| && s.world.auctions[id].phase == Closing
  }

  // ---------------------------------------------------------------- what a TEE can be made to sign

  /** The signed answer with content `c`. */
  function AnswerOf(c: Codec.CloseResult, actionId: Codec.Bytes32): Codec.ActionResult {
    Codec.ActionResult(Codec.PackResult(c), actionId, [], 1)
  }

  function NoSale(w: World, id: U256): Codec.CloseResult { Codec.CloseResult(w.self, id, ZERO_ADDRESS, 0) }

  function SaleTo(w: World, id: U256, buyer: Address, price: U256): Codec.CloseResult {
    Codec.CloseResult(w.self, id, buyer, price)
  }

  ghost predicate HasSigned(s: Site, c: Codec.CloseResult, actionId: Codec.Bytes32) {
    (s.world.chain.chainId, AnswerOf(c, actionId)) in s.signed
  }

  function Closed(s: Site, id: U256, actionId: Codec.Bytes32): Turn
    requires id < |s.world.auctions|
  {
    Handle(CloseNow(CloseOf(s.world, id)), actionId, [])
  }

  /** A close answered at a site signs the selection over the list held there. */
  lemma {:induction false} ClosingSigns(s: Site, decrypt: Decrypt, m: Message, actionId: Codec.Bytes32)
    requires m.CloseMessage?
    ensures var t := Take(s, decrypt, Handle(CloseNow(m), actionId, []));
            && t.world == s.world && s.signed <= t.signed
            && HasSigned(t, ResultOf(BidsOf(s.node.memory, m.auctionId), m), actionId)
            && t.node == s.node.(memory := MarkClosed(s.node.memory, m.auctionId))
  {
    var c := ResultOf(BidsOf(s.node.memory, m.auctionId), m);
    assert AnswerOf(c, actionId) in Output(s.node, decrypt, CloseNow(m), actionId, []);
  }

  /** A freshly restarted TEE asked to close signs that there is no sale. */
  lemma {:induction false} RestartedSignsNoSale(s: Site, decrypt: Decrypt, id: U256, actionId: Codec.Bytes32)
    requires id < |s.world.auctions|
    ensures var more := [Restart] + [Closed(s, id, actionId)];
            var t := Play(s, decrypt, more);
            && AllAllowed(s, decrypt, more) && t.world == s.world && HasSigned(t, NoSale(s.world, id), actionId)
  {
    assert [] + [Restart] == [Restart];
    PlayOneMore(s, decrypt, [], Restart);
    PlayOneMore(s, decrypt, [Restart], Closed(s, id, actionId));
    var restarted := Take(s, decrypt, Restart);
    ClosingSigns(restarted, decrypt, CloseOf(s.world, id), actionId);
    assert BidsOf(restarted.node.memory, id) == [];
  }

  lemma {:induction false} OneBidSelected(b: Bid, self: Address, reserve: U256)
    requires Eligible(b, self, reserve)
    ensures Best([b], self, reserve) == Some(b)
  {
    assert [b][..0] == [];
    assert Best([b][..0], self, reserve) == None;
  }

  /** The turns that make a TEE sign both: the contender's handler passes its closed check, the close is
      answered, the handler appends, the close is answered again. */
  function BothAnswers(s: Site, id: U256, sent: Sent, first: Codec.Bytes32, second: Codec.Bytes32): seq<Turn>
    requires id < |s.world.auctions|
  {
    [Handle(Begin(0, sent), first, [])] + [Closed(s, id, first)]
    + [Handle(Finish(0), first, [])] + [Closed(s, id, second)]
  }

  lemma {:induction false} BeginsAlone(s: Site, decrypt: Decrypt, id: U256, sent: Sent, actionId: Codec.Bytes32)
    requires s.node == Node(EMPTY, map[]) && Acceptable(decrypt, sent, id)
    ensures var t := Take(s, decrypt, Handle(Begin(0, sent), actionId, []));
            t.world == s.world && s.signed <= t.signed && t.node == Node(EMPTY, map[0 := sent])
  {
  }

  lemma {:induction false} FinishesAlone(s: Site, decrypt: Decrypt, id: U256, sent: Sent, actionId: Codec.Bytes32)
    requires s.node.running == map[0 := sent] && BidsOf(s.node.memory, id) == [] && Acceptable(decrypt, sent, id)
    ensures var t := Take(s, decrypt, Handle(Finish(0), actionId, []));
            && t.world == s.world && s.signed <= t.signed
            && |BidsOf(t.node.memory, id)| == 1 && StemsFrom(decrypt, sent, BidsOf(t.node.memory, id)[0])
  {
    var b := Encrypted(decrypt, sent, NextArrival(s.node.memory.counter));
    assert BidsOf(Take(s, decrypt, Handle(Finish(0), actionId, [])).node.memory, id) == [b];
  }

  /** The contender's handler passes its check, and the close is answered without it. */
  lemma {:induction false} FirstAnswer(s: Site, decrypt: Decrypt, id: U256, sent: Sent, first: Codec.Bytes32)
    requires s.node == Node(EMPTY, map[]) && id < |s.world.auctions| && Acceptable(decrypt, sent, id)
    ensures var t := Take(Take(s, decrypt, Handle(Begin(0, sent), first, [])), decrypt, Closed(s, id, first));
            && t.world == s.world && HasSigned(t, NoSale(s.world, id), first)
            && t.node.running == map[0 := sent] && BidsOf(t.node.memory, id) == []
  {
    BeginsAlone(s, decrypt, id, sent, first);
    ClosingSigns(Take(s, decrypt, Handle(Begin(0, sent), first, [])), decrypt, CloseOf(s.world, id), first);
  }

  lemma {:induction false} ContenderSelected(w: World, decrypt: Decrypt, id: U256, sent: Sent, bids: seq<Bid>)
    requires id < |w.auctions| && Contends(decrypt, sent, id, w.self, w.auctions[id].reservePrice)
    requires |bids| == 1 && StemsFrom(decrypt, sent, bids[0])
    ensures ResultOf(bids, CloseOf(w, id)) == SaleTo(w, id, sent.message.bidder, AmountOf(decrypt, sent))
  {
    assert bids == [bids[0]];
    OneBidSelected(bids[0], w.self, w.auctions[id].reservePrice);
  }

  /** The handler appends, and the close is answered with it. */
  lemma {:induction false} SecondAnswer(s: Site, decrypt: Decrypt, id: U256, sent: Sent, first: Codec.Bytes32,
                                        second: Codec.Bytes32)
    requires s.node.running == map[0 := sent] && id < |s.world.auctions| && BidsOf(s.node.memory, id) == []
    requires Contends(decrypt, sent, id, s.world.self, s.world.auctions[id].reservePrice)
    ensures var t := Take(Take(s, decrypt, Handle(Finish(0), first, [])), decrypt, Closed(s, id, second));
            && t.world == s.world && s.signed <= t.signed
            && HasSigned(t, SaleTo(s.world, id, sent.message.bidder, AmountOf(decrypt, sent)), second)
  {
    FinishesAlone(s, decrypt, id, sent, first);
    var s1 := Take(s, decrypt, Handle(Finish(0), first, []));
    ContenderSelected(s.world, decrypt, id, sent, BidsOf(s1.node.memory, id));
    ClosingSigns(s1, decrypt, CloseOf(s.world, id), second);
  }

  lemma {:induction false} FreshSignsBoth(s: Site, decrypt: Decrypt, id: U256, sent: Sent, first: Codec.Bytes32,
                                          second: Codec.Bytes32)
    requires s.node == Node(EMPTY, map[]) && id < |s.world.auctions| && sent in s.world.outbox
    requires Contends(decrypt, sent, id, s.world.self, s.world.auctions[id].reservePrice)
    ensures var more := BothAnswers(s, id, sent, first, second);
            var t := Play(s, decrypt, more);
            && AllAllowed(s, decrypt, more) && t.world == s.world && HasSigned(t, NoSale(s.world, id), first)
            && HasSigned(t, SaleTo(s.world, id, sent.message.bidder, AmountOf(decrypt, sent)), second)
  {
    var begin, finish := Handle(Begin(0, sent), first, []), Handle(Finish(0), first, []);
    PlayFour(s, decrypt, begin, Closed(s, id, first), finish, Closed(s, id, second));
    FirstAnswer(s, decrypt, id, sent, first);
    SecondAnswer(Take(Take(s, decrypt, begin), decrypt, Closed(s, id, first)), decrypt, id, sent, first, second);
  }

  /** Whatever the TEE holds, allowed turns make it sign that there is no sale, and that there is one to
      any contender of the queue. */
  lemma {:induction false} SignsBoth(s: Site, decrypt: Decrypt, id: U256, sent: Sent, first: Codec.Bytes32,
                                     second: Codec.Bytes32)
    returns (more: seq<Turn>)
    requires id < |s.world.auctions| && sent in s.world.outbox
    requires Contends(decrypt, sent, id, s.world.self, s.world.auctions[id].reservePrice)
    ensures AllAllowed(s, decrypt, more) && Play(s, decrypt, more).world == s.world
    ensures HasSigned(Play(s, decrypt, more), NoSale(s.world, id), first)
    ensures HasSigned(Play(s, decrypt, more), SaleTo(s.world, id, sent.message.bidder, AmountOf(decrypt, sent)), second)
  {
    assert [] + [Restart] == [Restart];
    PlayOneMore(s, decrypt, [], Restart);
    var restarted := Take(s, decrypt, Restart);
    FreshSignsBoth(restarted, decrypt, id, sent, first, second);
    AllAllowedSplits(s, decrypt, [Restart], BothAnswers(restarted, id, sent, first, second));
    more := [Restart] + BothAnswers(restarted, id, sent, first, second);
  }

  // ---------------------------------------------------------------- presenting a signed answer

  /** Every TEE key signs, on request, what its TEE answers. */
  ghost predicate KeysSign(chain: Codec.Chain, sign: (Address, Codec.Bytes32) -> Bytes) {
    forall key: Address, digest: Codec.Bytes32 ::
      key != ZERO_ADDRESS ==> Codec.Recover(chain, digest, sign(key, digest)) == Ok(key)
  }

  function Present(w: World, c: Codec.CloseResult, actionId: Codec.Bytes32, caller: Address,
                   sign: (Address, Codec.Bytes32) -> Bytes): Tx
  {
    var r := AnswerOf(c, actionId);
    Tx(0, caller, SettleWith(r, sign(w.teeAddress, Codec.Digest(w.chain.keccak, w.chain.chainId, r))), true)
  }

  lemma {:induction false} PresentingSigned(s: Site, decrypt: Decrypt, c: Codec.CloseResult, actionId: Codec.Bytes32,
                                            caller: Address,
                                            sign: (Address, Codec.Bytes32) -> Bytes)
    requires HasSigned(s, c, actionId) && caller != s.world.self && caller != ZERO_ADDRESS
    requires !s.world.entered && s.world.teeAddress != ZERO_ADDRESS && KeysSign(s.world.chain, sign)
    requires c.contractAddr == s.world.self
    ensures var tx := Present(s.world, c, actionId, caller, sign);
            Allowed(s, Mine(tx)) && Apply(s.world, tx) == ApplyResult(s.world, c)
  {
    var tx := Present(s.world, c, actionId, caller, sign);
    Codec.SignedIsReliable(s.world.chain, s.world.teeAddress, s.signed, tx.call.result, tx.call.sig);
    PresentingApplies(s.world, tx, c);
  }

  // ---------------------------------------------------------------- it can always be cancelled

  ghost predicate CancelledIn(s: Site, decrypt: Decrypt, more: seq<Turn>, id: U256) {
    && AllAllowed(s, decrypt, more) && id < |Play(s, decrypt, more).world.auctions|
    && Play(s, decrypt, more).world.auctions[id].phase == Cancelled
  }

  lemma {:induction false} NoSaleCancels(w: World, id: U256)
    requires Escrowed(w) && id < |w.auctions| && w.auctions[id].phase == Closing
    ensures var r := ApplyResult(w, NoSale(w, id));
            r.Ok? && id < |r.value.auctions| && r.value.auctions[id].phase == Cancelled
  {
    ApplyResultKeepsEscrow(w, NoSale(w, id));
    ResultHasShape(w, NoSale(w, id));
  }

  /** Main result. In every allowed run a pending auction can still be cancelled, whoever is due and
      whether or not anyone pays: a restarted TEE signs that there is no sale, and any outside account
      can present that. */
  lemma {:induction false} PendingCanBeCancelled(start: Site, decrypt: Decrypt, turns: seq<Turn>, id: U256,
                                                 caller: Address, actionId: Codec.Bytes32,
                                                 sign: (Address, Codec.Bytes32) -> Bytes)
    returns (more: seq<Turn>)
    requires AtRest(start) && AllAllowed(start, decrypt, turns)
    requires var w := Play(start, decrypt, turns).world;
             && id < |w.auctions| && w.auctions[id].phase == Closing && w.teeAddress != ZERO_ADDRESS
             && caller != w.self && caller != ZERO_ADDRESS && KeysSign(w.chain, sign)
    ensures CancelledIn(Play(start, decrypt, turns), decrypt, more, id)
  {
    var s := Play(start, decrypt, turns);
    PreparedInEveryRun(start, decrypt, turns);
    RestartedSignsNoSale(s, decrypt, id, actionId);
    var first := [Restart] + [Closed(s, id, actionId)];
    var t := Play(s, decrypt, first);
    PresentingSigned(t, decrypt, NoSale(s.world, id), actionId, caller, sign);
    NoSaleCancels(s.world, id);
    var tx := Present(t.world, NoSale(s.world, id), actionId, caller, sign);
    PlayOneMore(s, decrypt, first, Mine(tx));
    more := first + [Mine(tx)];
  }

  // ---------------------------------------------------------------- it can be sold to whoever pays

  predicate IsSold(w: World, id: U256, buyer: Address, price: U256) {
    && id < |w.auctions| && w.auctions[id].phase == Settled
    && w.auctions[id].winner == buyer && w.auctions[id].clearingPrice == price
  }

  ghost predicate SoldIn(s: Site, decrypt: Decrypt, more: seq<Turn>, id: U256, buyer: Address, price: U256) {
    && AllAllowed(s, decrypt, more) && IsSold(Play(s, decrypt, more).world, id, buyer, price)
  }

  /** A queued bid of `buyer` at `price` contends, and the buyer covers the price. */
  ghost predicate CanBuy(s: Site, decrypt: Decrypt, id: U256, buyer: Address, price: U256) {
    && id < |s.world.auctions| && s.world.auctions[id].phase == Closing
    && HasBid(decrypt, s.world.outbox, id, s.world.self, buyer, price) && price >= s.world.auctions[id].reservePrice
    && Funded(s.world, s.world.auctions[id].payToken, buyer, price)
  }

  ghost predicate CanBuyAfter(s: Site, decrypt: Decrypt, more: seq<Turn>, id: U256, buyer: Address, price: U256) {
    AllAllowed(s, decrypt, more) && CanBuy(Play(s, decrypt, more), decrypt, id, buyer, price)
  }

  lemma {:induction false} SaleSells(w: World, id: U256, buyer: Address, price: U256)
    requires Escrowed(w) && id < |w.auctions| && w.auctions[id].phase == Closing && buyer != ZERO_ADDRESS
    requires price >= w.auctions[id].reservePrice && Funded(w, w.auctions[id].payToken, buyer, price)
    ensures var r := ApplyResult(w, SaleTo(w, id, buyer, price)); r.Ok? && IsSold(r.value, id, buyer, price)
  {
    ApplyResultKeepsEscrow(w, SaleTo(w, id, buyer, price));
    ResultHasShape(w, SaleTo(w, id, buyer, price));
  }

  lemma {:induction false} BuyerCanBeSoldTo(s: Site, decrypt: Decrypt, id: U256, buyer: Address, price: U256,
                                            caller: Address,
                                            actionId: Codec.Bytes32, sign: (Address, Codec.Bytes32) -> Bytes)
    returns (more: seq<Turn>)
    requires Prepared(s, decrypt) && CanBuy(s, decrypt, id, buyer, price)
    requires s.world.teeAddress != ZERO_ADDRESS && KeysSign(s.world.chain, sign)
    requires caller != s.world.self && caller != ZERO_ADDRESS
    ensures SoldIn(s, decrypt, more, id, buyer, price)
  {
    var q := s.world.outbox;
    var k :| 0 <= k < |q| && Names(decrypt, q[k], id, s.world.self, buyer, price);
    QueuedBidderIsReal(s, decrypt, q[k]);
    var first := SignsBoth(s, decrypt, id, q[k], actionId, actionId);
    var t := Play(s, decrypt, first);
    var c := SaleTo(s.world, id, buyer, price);
    PresentingSigned(t, decrypt, c, actionId, caller, sign);
    SaleSells(s.world, id, buyer, price);
    var tx := Present(t.world, c, actionId, caller, sign);
    PlayOneMore(s, decrypt, first, Mine(tx));
    more := first + [Mine(tx)];
  }

  // ---------------------------------------------------------------- exactly how it ends

  ghost predicate EndsIt(w: World, c: Codec.CloseResult, id: U256)
    requires id < |w.auctions|
  {
    && c.auctionId == id && c.contractAddr == w.self
    && (c.winner != ZERO_ADDRESS ==> c.clearingPrice >= w.auctions[id].reservePrice
                                     && Funded(w, w.auctions[id].payToken, c.winner, c.clearingPrice))
  }

  /** `tx` presents a signed result about auction `id`: one without a winner, or one whose winner meets
      the reserve and covers the price. */
  ghost predicate PresentsEnd(s: Site, tx: Tx, id: U256)
    requires id < |s.world.auctions|
  {
    var w := s.world;
    && tx.call.SettleWith? && w.teeAddress != ZERO_ADDRESS && tx.call.result.status == 1
    && Codec.SignerOf(w.chain, tx.call.result, tx.call.sig) == Ok(w.teeAddress)
    && (w.chain.chainId, tx.call.result) in s.signed
    && Codec.UnpackResult(tx.call.result.data).Ok?
    && EndsIt(w, Codec.UnpackResult(tx.call.result.data).value, id)
  }

  lemma {:induction false} PresentedEndApplies(s: Site, decrypt: Decrypt, tx: Tx, id: U256)
    requires Prepared(s, decrypt) && id < |s.world.auctions| && PresentsEnd(s, tx, id)
    ensures Apply(s.world, tx) == ApplyResult(s.world, Codec.UnpackResult(tx.call.result.data).value)
  {
    AuthenticApplies(s.world, tx.call.result, tx.call.sig, Codec.UnpackResult(tx.call.result.data).value);
  }

  lemma {:induction false} EndingResultEnds(w: World, c: Codec.CloseResult, id: U256)
    requires Escrowed(w) && id < |w.auctions| && w.auctions[id].phase == Closing && EndsIt(w, c, id)
    ensures ApplyResult(w, c).Ok? && id < |ApplyResult(w, c).value.auctions|
    ensures ApplyResult(w, c).value.auctions[id].phase != Closing
  {
    ApplyResultKeepsEscrow(w, c);
    ResultHasShape(w, c);
  }

  lemma {:induction false} OnlySettlingEnds(w: World, tx: Tx, w1: World, id: U256)
    requires Shape(w, tx, w1) && !tx.call.SettleWith? && id < |w.auctions| && w.auctions[id].phase == Closing
    ensures id < |w1.auctions| && w1.auctions[id].phase == Closing
  {
  }

  lemma {:induction false} EndWasPresented(s: Site, decrypt: Decrypt, tx: Tx, id: U256)
    requires Prepared(s, decrypt) && id < |s.world.auctions| && s.world.auctions[id].phase == Closing
    requires Allowed(s, Mine(tx)) && id < |Step(s.world, tx).auctions|
             && Step(s.world, tx).auctions[id].phase != Closing
    ensures PresentsEnd(s, tx, id)
  {
    var w := s.world;
    if Apply(w, tx).Ok? {
      ApplyHasShape(w, tx);
      if tx.call.SettleWith? {
        SettleShape(w, tx);
        ApplyResultKeepsEscrow(w, Codec.UnpackResult(tx.call.result.data).value);
        Codec.RecoveredResultWasSigned(w.chain, w.teeAddress, s.signed, tx.call.result, tx.call.sig);
      } else {
        OnlySettlingEnds(w, tx, Apply(w, tx).value, id);
      }
    }
  }

  /** Main result, step by step: in every allowed run a closing auction leaves that phase exactly at the
      presentation of a signed result without a winner, or with one who meets the reserve and pays. */
  lemma {:induction false} LeavesClosingExactlyWhenPresented(start: Site, decrypt: Decrypt, turns: seq<Turn>,
                                                             tx: Tx, id: U256)
    requires AtRest(start) && AllAllowed(start, decrypt, turns + [Mine(tx)])
    requires var w := Play(start, decrypt, turns).world; id < |w.auctions| && w.auctions[id].phase == Closing
    ensures var s := Play(start, decrypt, turns);
            && id < |Step(s.world, tx).auctions|
            && (Step(s.world, tx).auctions[id].phase != Closing <==> PresentsEnd(s, tx, id))
  {
    PlayOneMore(start, decrypt, turns, Mine(tx));
    var s := Play(start, decrypt, turns);
    PreparedInEveryRun(start, decrypt, turns);
    StepAdvances(s.world, tx, id);
    if PresentsEnd(s, tx, id) {
      PresentedEndApplies(s, decrypt, tx, id);
      EndingResultEnds(s.world, Codec.UnpackResult(tx.call.result.data).value, id);
    } else if Step(s.world, tx).auctions[id].phase != Closing {
      EndWasPresented(s, decrypt, tx, id);
    }
  }

  lemma {:induction false} SellingTurn(s: Site, decrypt: Decrypt, t: Turn, id: U256, buyer: Address, price: U256)
    requires Prepared(s, decrypt) && Allowed(s, t) && id < |s.world.auctions| && s.world.auctions[id].phase == Closing
    requires IsSold(Take(s, decrypt, t).world, id, buyer, price)
    ensures CanBuy(s, decrypt, id, buyer, price)
  {
    var tx := t.tx;
    EndWasPresented(s, decrypt, tx, id);
    NewlySettledIsGenuine(s.world, decrypt, s.signed, tx, id);
    NewlySettled(s.world, tx, id);
  }

  lemma {:induction false} EndedStays(s: Site, decrypt: Decrypt, t: Turn, id: U256)
    requires id < |s.world.auctions| && !Live(s.world.auctions[id])
    ensures id < |Take(s, decrypt, t).world.auctions| && Take(s, decrypt, t).world.auctions[id] == s.world.auctions[id]
  {
    if t.Mine? {
      StepAdvances(s.world, t.tx, id);
    }
  }

  lemma {:induction false} PhaseMovesOn(s: Site, decrypt: Decrypt, more: seq<Turn>, id: U256)
    requires id < |s.world.auctions| && s.world.auctions[id].phase == Closing
    ensures var w := Play(s, decrypt, more).world; id < |w.auctions| && w.auctions[id].phase != Open
  {
    if more == [] {
    } else {
      var n := |more| - 1;
      PhaseMovesOn(s, decrypt, more[..n], id);
      if more[n].Mine? {
        StepAdvances(Play(s, decrypt, more[..n]).world, more[n].tx, id);
      }
    }
  }

  lemma {:induction false} SaleNeedsBuyer(s: Site, decrypt: Decrypt, more: seq<Turn>, id: U256, buyer: Address,
                                          price: U256)
    returns (earlier: seq<Turn>)
    requires Pending(s, decrypt, id) && SoldIn(s, decrypt, more, id, buyer, price)
    ensures CanBuyAfter(s, decrypt, earlier, id, buyer, price)
  {
    var n := |more| - 1;
    PreparedLater(s, decrypt, more[..n]);
    var t := Play(s, decrypt, more[..n]);
    PhaseMovesOn(s, decrypt, more[..n], id);
    if t.world.auctions[id].phase == Closing {
      SellingTurn(t, decrypt, more[n], id, buyer, price);
      earlier := more[..n];
    } else {
      EndedStays(t, decrypt, more[n], id);
      earlier := SaleNeedsBuyer(s, decrypt, more[..n], id, buyer, price);
    }
  }

  lemma {:induction false} BuyerBuys(s: Site, decrypt: Decrypt, more: seq<Turn>, id: U256, buyer: Address, price: U256,
                                     caller: Address, actionId: Codec.Bytes32, sign: (Address, Codec.Bytes32) -> Bytes)
    returns (ending: seq<Turn>)
    requires Pending(s, decrypt, id) && CanBuyAfter(s, decrypt, more, id, buyer, price)
    requires caller != s.world.self && caller != ZERO_ADDRESS && KeysSign(s.world.chain, sign)
    ensures SoldIn(s, decrypt, ending, id, buyer, price)
  {
    PreparedLater(s, decrypt, more);
    var last := BuyerCanBeSoldTo(Play(s, decrypt, more), decrypt, id, buyer, price, caller, actionId, sign);
    AllAllowedSplits(s, decrypt, more, last);
    ending := more + last;
  }

  /** Main result, exactly: in a continuation of any allowed run a pending auction can come to be sold to
      `buyer` at `price` if and only if it can come to a state in which a queued bid of that buyer at
      that price contends and the buyer covers it. */
  lemma {:induction false} SoldExactlyToThoseWhoPay(start: Site, decrypt: Decrypt, turns: seq<Turn>, id: U256,
                                                    buyer: Address, price: U256, caller: Address,
                                                    actionId: Codec.Bytes32, sign: (Address, Codec.Bytes32) -> Bytes)
    requires AtRest(start) && AllAllowed(start, decrypt, turns)
    requires var w := Play(start, decrypt, turns).world;
             && id < |w.auctions| && w.auctions[id].phase == Closing && w.teeAddress != ZERO_ADDRESS
             && caller != w.self && caller != ZERO_ADDRESS && KeysSign(w.chain, sign)
    ensures var s := Play(start, decrypt, turns);
            (exists more :: SoldIn(s, decrypt, more, id, buyer, price))
            <==> (exists more :: CanBuyAfter(s, decrypt, more, id, buyer, price))
  {
    var s := Play(start, decrypt, turns);
    PreparedInEveryRun(start, decrypt, turns);
    if more :| SoldIn(s, decrypt, more, id, buyer, price) {
      var earlier := SaleNeedsBuyer(s, decrypt, more, id, buyer, price);
    }
    if more :| CanBuyAfter(s, decrypt, more, id, buyer, price) {
      var ending := BuyerBuys(s, decrypt, more, id, buyer, price, caller, actionId, sign);
    }
  }

  // ---------------------------------------------------------------- replay, over every continuation

  /** A signed result about auction `id` that its reserve does not rule out. */
  ghost predicate Usable(s: Site, w: World, r: Codec.ActionResult, c: Codec.CloseResult, id: U256)
    requires id < |w.auctions|
  {
    && (s.world.chain.chainId, r) in s.signed && r.status == 1 && Codec.UnpackResult(r.data) == Ok(c)
    && c.auctionId == id && c.contractAddr == w.self
    && (c.winner != ZERO_ADDRESS ==> c.clearingPrice >= w.auctions[id].reservePrice)
  }

  /** In every allowed continuation, any two usable results signed by then settle alike at `w`. */
  ghost predicate AllAnswersAlike(s: Site, decrypt: Decrypt, id: U256, w: World)
    requires id < |w.auctions|
  {
    forall more, r, c, r1, c1 ::
      (&& AllAllowed(s, decrypt, more)
       && Usable(Play(s, decrypt, more), w, r, c, id) && Usable(Play(s, decrypt, more), w, r1, c1, id))
      ==> SettleAlike(w, c, c1)
  }

  lemma {:induction false} QueueOfPending(s: Site, decrypt: Decrypt, more: seq<Turn>, id: U256, sent: Sent)
    requires id < |s.world.auctions| && s.world.auctions[id].phase == Closing && IsBidFor(sent, id)
    ensures sent in Play(s, decrypt, more).world.outbox ==> sent in s.world.outbox
  {
    if more == [] {
    } else {
      var n := |more| - 1;
      QueueOfPending(s, decrypt, more[..n], id, sent);
      PhaseMovesOn(s, decrypt, more[..n], id);
      if more[n].Mine? {
        var added := NoBidUnlessOpen(Play(s, decrypt, more[..n]).world, more[n].tx, id);
      }
    }
  }

  /** Without a contender every usable result says that there is no sale. */
  lemma {:induction false} UsableWithoutContender(s: Site, decrypt: Decrypt, more: seq<Turn>, id: U256,
                                                  r: Codec.ActionResult,
                                                  c: Codec.CloseResult)
    requires Pending(s, decrypt, id) && AllAllowed(s, decrypt, more)
    requires NoContender(decrypt, s.world.outbox, id, s.world.self, s.world.auctions[id].reservePrice)
    requires Usable(Play(s, decrypt, more), s.world, r, c, id)
    ensures c.winner == ZERO_ADDRESS
  {
    PreparedLater(s, decrypt, more);
    var t := Play(s, decrypt, more);
    assert ResultGenuine(decrypt, t.world.outbox, c);
    if c.winner != ZERO_ADDRESS {
      var q := t.world.outbox;
      var k :| 0 <= k < |q| && Names(decrypt, q[k], id, s.world.self, c.winner, c.clearingPrice);
      QueueOfPending(s, decrypt, more, id, q[k]);
    }
  }

  lemma {:induction false} NoSalesSettleAlike(w: World, c: Codec.CloseResult, d: Codec.CloseResult)
    requires c.winner == ZERO_ADDRESS && d.winner == ZERO_ADDRESS && c.auctionId == d.auctionId
    ensures SettleAlike(w, c, d)
  {
    forall r, sig, r1, sig1 | Authentic(w, r, sig, c) && Authentic(w, r1, sig1, d)
      ensures Settle(w, r, sig) == Settle(w, r1, sig1)
    {
      if !w.entered {
        AuthenticApplies(w, r, sig, c);
        AuthenticApplies(w, r1, sig1, d);
      }
    }
  }

  lemma {:induction false} ContenderMakesAnswersDiffer(s: Site, decrypt: Decrypt, id: U256, sent: Sent,
                                                       sign: (Address, Codec.Bytes32) -> Bytes)
    requires Pending(s, decrypt, id) && KeysSign(s.world.chain, sign) && sent in s.world.outbox
    requires Contends(decrypt, sent, id, s.world.self, s.world.auctions[id].reservePrice)
    ensures !AllAnswersAlike(s, decrypt, id, s.world)
  {
    var w, actionId := s.world, Codec.Word(0, 32);
    var more := SignsBoth(s, decrypt, id, sent, actionId, actionId);
    var c, d := NoSale(w, id), SaleTo(w, id, sent.message.bidder, AmountOf(decrypt, sent));
    Codec.UnpackInvertsPack(c);
    Codec.UnpackInvertsPack(d);
    QueuedBidderIsReal(s, decrypt, sent);
    NoSaleCancels(w, id);
    SettleAlikeExactlyIfEqual(w, c, d, digest => sign(w.teeAddress, digest));
    assert Usable(Play(s, decrypt, more), w, AnswerOf(c, actionId), c, id);
    assert Usable(Play(s, decrypt, more), w, AnswerOf(d, actionId), d, id);
  }

  /** Main result on replay, restarts included: in every allowed run, all usable answers about a pending
      auction, past, present and future, settle it alike if and only if nothing in the queue contends. */
  lemma {:induction false} AnswersSettleAlikeExactlyWithoutContender(
    start: Site, decrypt: Decrypt, turns: seq<Turn>, id: U256, sign: (Address, Codec.Bytes32) -> Bytes)
    requires AtRest(start) && AllAllowed(start, decrypt, turns)
    requires var w := Play(start, decrypt, turns).world;
             && id < |w.auctions| && w.auctions[id].phase == Closing && w.teeAddress != ZERO_ADDRESS
             && KeysSign(w.chain, sign)
    ensures var s := Play(start, decrypt, turns);
            AllAnswersAlike(s, decrypt, id, s.world)
            <==> NoContender(decrypt, s.world.outbox, id, s.world.self, s.world.auctions[id].reservePrice)
  {
    var s := Play(start, decrypt, turns);
    PreparedInEveryRun(start, decrypt, turns);
    if NoContender(decrypt, s.world.outbox, id, s.world.self, s.world.auctions[id].reservePrice) {
      forall more, r, c, r1, c1 | AllAllowed(s, decrypt, more) && Usable(Play(s, decrypt, more), s.world, r, c, id)
                                  && Usable(Play(s, decrypt, more), s.world, r1, c1, id)
        ensures SettleAlike(s.world, c, c1)
      {
        UsableWithoutContender(s, decrypt, more, id, r, c);
        UsableWithoutContender(s, decrypt, more, id, r1, c1);
        NoSalesSettleAlike(s.world, c, c1);
      }
    } else {
      var sent :| sent in s.world.outbox
                  && Contends(decrypt, sent, id, s.world.self, s.world.auctions[id].reservePrice);
      ContenderMakesAnswersDiffer(s, decrypt, id, sent, sign);
    }
  }
}

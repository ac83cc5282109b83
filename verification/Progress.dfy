/** How live auctions end while one TEE, registered once and never restarted, is fed in order: from every
    reachable state any outside account can drive a live auction to the end its bids require, except that
    a sale waits for the winner to cover the price. What restarts and new registrations add is in `Ends`. */
module Progress {
  import opened Types
  import opened Auction
  import opened Frames
  import opened Escrow
  import opened Queue
  import opened Tee
  import opened Protocol
  import Codec

  lemma {:induction false} AfterSplits(s: System, decrypt: Decrypt, first: seq<Happening>, later: seq<Happening>)
    ensures After(s, decrypt, first + later) == After(After(s, decrypt, first), decrypt, later)
    ensures Legal(s, decrypt, first + later)
       <==> Legal(s, decrypt, first) && Legal(After(s, decrypt, first), decrypt, later)
  {
    if later == [] {
      assert first + later == first;
    } else {
      var k := |later| - 1;
      AfterSplits(s, decrypt, first, later[..k]);
      assert (first + later)[..|first + later| - 1] == first + later[..k];
    }
  }

  lemma {:induction false} AfterOne(s: System, decrypt: Decrypt, h: Happening)
    ensures After(s, decrypt, [h]) == Next(s, decrypt, h)
    ensures Legal(s, decrypt, [h]) <==> Possible(s, h)
  {
    assert [h][..0] == [];
    assert After(s, decrypt, [h][..0]) == s;
    assert Legal(s, decrypt, [h][..0]);
  }

  lemma {:induction false} AfterOneMore(s: System, decrypt: Decrypt, hs: seq<Happening>, h: Happening)
    ensures After(s, decrypt, hs + [h]) == Next(After(s, decrypt, hs), decrypt, h)
    ensures Legal(s, decrypt, hs + [h]) <==> Legal(s, decrypt, hs) && Possible(After(s, decrypt, hs), h)
  {
    AfterSplits(s, decrypt, hs, [h]);
    AfterOne(After(s, decrypt, hs), decrypt, h);
  }

  // ---------------------------------------------------------------- every reachable state is ready

  ghost predicate Ready(s: System, decrypt: Decrypt) { Sound(s, decrypt) && Escrowed(s.world) }

  lemma {:induction false} StepKeepsTee(w: World, tx: Tx)
    requires !tx.call.SetTee?
    ensures Step(w, tx).teeAddress == w.teeAddress
  {
    ApplyHasShape(w, tx);
    if Apply(w, tx).Ok? && tx.call.SettleWith? {
      var result :| ResultShape(w, result, Apply(w, tx).value);
    }
  }

  lemma {:induction false} NextKeepsReady(s: System, decrypt: Decrypt, h: Happening)
    requires Ready(s, decrypt) && Possible(s, h)
    ensures var t := Next(s, decrypt, h);
            && Ready(t, decrypt) && t.world.self == s.world.self && t.world.chain == s.world.chain
            && (s.world.teeAddress != ZERO_ADDRESS ==> t.world.teeAddress == s.world.teeAddress)
  {
    match h {
      case OnChain(tx) =>
        TxKeepsSystemSound(s, decrypt, tx);
        StepKeepsEscrow(s.world, tx);
        StepKeepsIdentity(s.world, tx);
        if !tx.call.SetTee? {
          StepKeepsTee(s.world, tx);
        }
      case AtTee(actionId, tag) =>
        DeliveryKeepsSound(s, decrypt, actionId, tag);
      case Elsewhere(_, _) =>
    }
  }

  lemma {:induction false} ReadyLater(s: System, decrypt: Decrypt, hs: seq<Happening>)
    requires Ready(s, decrypt) && Legal(s, decrypt, hs)
    ensures var t := After(s, decrypt, hs);
            && Ready(t, decrypt) && t.world.self == s.world.self && t.world.chain == s.world.chain
            && (s.world.teeAddress != ZERO_ADDRESS ==> t.world.teeAddress == s.world.teeAddress)
  {
    if hs == [] {
    } else {
      var n := |hs| - 1;
      ReadyLater(s, decrypt, hs[..n]);
      NextKeepsReady(After(s, decrypt, hs[..n]), decrypt, hs[n]);
    }
  }

  lemma {:induction false} ReadyInEveryRun(s: System, decrypt: Decrypt, hs: seq<Happening>)
    requires Start(s) && Legal(s, decrypt, hs)
    ensures Ready(After(s, decrypt, hs), decrypt) && After(s, decrypt, hs).world.self == s.world.self
  {
    ReadyLater(s, decrypt, hs);
  }

  // ---------------------------------------------------------------- driving one auction to its end

  /** The end the bids in the queue require for an auction: its winner and price. */
  function Due(w: World, decrypt: Decrypt, id: U256): Codec.CloseResult
    requires id < |w.auctions|
  {
    InOrder(decrypt, w.outbox, id, w.self, w.auctions[id].reservePrice)
  }

  /** The winner due covers the price due. */
  ghost predicate Covered(w: World, decrypt: Decrypt, id: U256)
    requires id < |w.auctions|
  {
    Funded(w, w.auctions[id].payToken, Due(w, decrypt, id).winner, Due(w, decrypt, id).clearingPrice)
  }

  /** The TEE works off its queue. */
  lemma {:induction false} CatchUp(s: System, decrypt: Decrypt, actionId: Codec.Bytes32, tag: Bytes)
    returns (hs: seq<Happening>)
    requires Ready(s, decrypt)
    ensures Legal(s, decrypt, hs) && Ready(After(s, decrypt, hs), decrypt)
    ensures var t := After(s, decrypt, hs); t.world == s.world && t.now == s.now && t.delivered == |s.world.outbox|
    decreases |s.world.outbox| - s.delivered
  {
    if s.delivered == |s.world.outbox| {
      hs := [];
    } else {
      var h := AtTee(actionId, tag);
      var t := Next(s, decrypt, h);
      NextKeepsReady(s, decrypt, h);
      var rest := CatchUp(t, decrypt, actionId, tag);
      hs := [h] + rest;
      AfterOne(s, decrypt, h);
      AfterSplits(s, decrypt, [h], rest);
    }
  }

  /** The close of a live auction commits at any time from its deadline on. */
  lemma {:induction false} ClosingCommits(w: World, tx: Tx)
    requires tx.call.Close? && tx.call.auctionId < |w.auctions| && Live(w.auctions[tx.call.auctionId])
    requires tx.now >= w.auctions[tx.call.auctionId].deadline && tx.routed
    ensures CloseEffect(w, tx.now, tx.call.auctionId, Step(w, tx))
  {
  }

  lemma {:induction false} DueMeetsReserve(w: World, decrypt: Decrypt, id: U256)
    requires Disciplined(w) && id < |w.auctions| && Due(w, decrypt, id).winner != ZERO_ADDRESS
    ensures Due(w, decrypt, id).clearingPrice >= w.auctions[id].reservePrice
  {
    var k := InOrderSaysTop(w, decrypt, id);
  }

  /** How auction `id`, live in `w`, stands in `w1` after the result due in `w` was presented. */
  ghost predicate EndedAsDue(w: World, decrypt: Decrypt, w1: World, id: U256)
    requires id < |w.auctions|
  {
    var r := Due(w, decrypt, id);
    && id < |w1.auctions|
    && var b := w1.auctions[id];
       if r.winner == ZERO_ADDRESS then b.phase == Cancelled
       else if Covered(w, decrypt, id) then
         b.phase == Settled && b.winner == r.winner && b.clearingPrice == r.clearingPrice
       else b.phase == Closing
  }

  predicate Presents(w: World, tx: Tx, r: Codec.CloseResult) {
    && tx.call.SettleWith? && Codec.SignerOf(w.chain, tx.call.result, tx.call.sig) == Ok(w.teeAddress)
    && tx.call.result.status == 1 && tx.call.result.data == Codec.PackResult(r) && r.contractAddr == w.self
  }

  lemma {:induction false} PresentingApplies(w: World, tx: Tx, r: Codec.CloseResult)
    requires !w.entered && w.teeAddress != ZERO_ADDRESS && Presents(w, tx, r)
    ensures Apply(w, tx) == ApplyResult(w, r)
  {
    Codec.UnpackInvertsPack(r);
  }

  lemma {:induction false} PresentingEnds(w: World, decrypt: Decrypt, tx: Tx, id: U256)
    requires Escrowed(w) && Disciplined(w) && w.teeAddress != ZERO_ADDRESS
    requires id < |w.auctions| && w.auctions[id].phase == Closing && Presents(w, tx, Due(w, decrypt, id))
    ensures EndedAsDue(w, decrypt, Step(w, tx), id)
  {
    var r := Due(w, decrypt, id);
    if r.winner != ZERO_ADDRESS {
      DueMeetsReserve(w, decrypt, id);
    }
    PresentingApplies(w, tx, r);
    ApplyResultKeepsEscrow(w, r);
    ResultHasShape(w, r);
  }

  function CloseAt(id: U256, caller: Address, now: U64): Happening { OnChain(Tx(now, caller, Close(id), true)) }

  lemma {:induction false} CloseStep(s: System, decrypt: Decrypt, id: U256, caller: Address, now: U64)
    requires Ready(s, decrypt) && id < |s.world.auctions| && Live(s.world.auctions[id])
    requires caller != s.world.self && caller != ZERO_ADDRESS && now >= s.now && now >= s.world.auctions[id].deadline
    ensures var t := Next(s, decrypt, CloseAt(id, caller, now));
            && Possible(s, CloseAt(id, caller, now)) && Ready(t, decrypt) && CloseEffect(s.world, now, id, t.world)
            && t.memory == s.memory && t.delivered == s.delivered && t.now == now
            && t.world.outbox[|s.world.outbox|].message == CloseOf(t.world, id)
            && Due(t.world, decrypt, id) == Due(s.world, decrypt, id)
  {
    ClosingCommits(s.world, Tx(now, caller, Close(id), true));
    NextKeepsReady(s, decrypt, CloseAt(id, caller, now));
    AnswerStays(decrypt, s.world.outbox, [Sent(now, CloseOf(s.world, id))], id, s.world.self,
        s.world.auctions[id].reservePrice);
  }

  /** `sign` makes signatures of `key`. */
  ghost predicate SignsFor(chain: Codec.Chain, key: Address, sign: Codec.Bytes32 -> Bytes) {
    forall digest: Codec.Bytes32 :: Codec.Recover(chain, digest, sign(digest)) == Ok(key)
  }

  /** The settlement that presents the TEE's answer to the instruction it is about to consume. */
  function Presenting(t: System, decrypt: Decrypt, caller: Address, actionId: Codec.Bytes32, tag: Bytes,
                      sign: Codec.Bytes32 -> Bytes): Tx
    requires t.delivered < |t.world.outbox|
  {
    var answer := Answer(t.memory, decrypt, t.world.outbox[t.delivered], actionId, tag);
    Tx(t.now, caller, SettleWith(answer, sign(Codec.Digest(t.world.chain.keccak, t.world.chain.chainId, answer))), true)
  }

  lemma {:induction false} AnswerAndPresent(t: System, decrypt: Decrypt, id: U256, caller: Address,
                                            actionId: Codec.Bytes32, tag: Bytes,
                                            sign: Codec.Bytes32 -> Bytes)
    requires Ready(t, decrypt) && t.delivered < |t.world.outbox| && id < |t.world.auctions|
    requires t.world.outbox[t.delivered].message == CloseOf(t.world, id) && t.world.auctions[id].phase == Closing
    requires t.world.teeAddress != ZERO_ADDRESS && SignsFor(t.world.chain, t.world.teeAddress, sign)
    requires caller != t.world.self && caller != ZERO_ADDRESS
    ensures var hs := [AtTee(actionId, tag)] + [OnChain(Presenting(t, decrypt, caller, actionId, tag, sign))];
            Legal(t, decrypt, hs) && EndedAsDue(t.world, decrypt, After(t, decrypt, hs).world, id)
  {
    var settle := Presenting(t, decrypt, caller, actionId, tag, sign);
    CloseAnswerIsRight(t.world, decrypt, t.delivered);
    PresentingEnds(t.world, decrypt, settle, id);
    AfterOne(t, decrypt, AtTee(actionId, tag));
    var signed := Next(t, decrypt, AtTee(actionId, tag)).signed;
    Codec.SignedIsReliable(t.world.chain, t.world.teeAddress, signed, settle.call.result, settle.call.sig);
    AfterOneMore(t, decrypt, [AtTee(actionId, tag)], OnChain(settle));
  }

  /** Close, answer, settle, from a state in which the TEE is up to date. */
  lemma {:induction false} DriveToTheEnd(s: System, decrypt: Decrypt, id: U256, caller: Address, now: U64,
                                         actionId: Codec.Bytes32, tag: Bytes, sign: Codec.Bytes32 -> Bytes)
    returns (hs: seq<Happening>)
    requires Ready(s, decrypt) && s.delivered == |s.world.outbox|
    requires id < |s.world.auctions| && Live(s.world.auctions[id])
    requires s.world.teeAddress != ZERO_ADDRESS && SignsFor(s.world.chain, s.world.teeAddress, sign)
    requires caller != s.world.self && caller != ZERO_ADDRESS && now >= s.now && now >= s.world.auctions[id].deadline
    ensures Legal(s, decrypt, hs) && EndedAsDue(s.world, decrypt, After(s, decrypt, hs).world, id)
  {
    CloseStep(s, decrypt, id, caller, now);
    var closed := Next(s, decrypt, CloseAt(id, caller, now));
    AnswerAndPresent(closed, decrypt, id, caller, actionId, tag, sign);
    var last := [AtTee(actionId, tag)] + [OnChain(Presenting(closed, decrypt, caller, actionId, tag, sign))];
    hs := [CloseAt(id, caller, now)] + last;
    AfterOne(s, decrypt, CloseAt(id, caller, now));
    AfterSplits(s, decrypt, [CloseAt(id, caller, now)], last);
  }

  lemma {:induction false} EndFromReady(s: System, decrypt: Decrypt, id: U256, caller: Address,
                                        actionId: Codec.Bytes32, tag: Bytes, sign: Codec.Bytes32 -> Bytes)
    returns (hs: seq<Happening>)
    requires Ready(s, decrypt) && id < |s.world.auctions| && Live(s.world.auctions[id])
    requires s.world.teeAddress != ZERO_ADDRESS && SignsFor(s.world.chain, s.world.teeAddress, sign)
    requires caller != s.world.self && caller != ZERO_ADDRESS
    ensures Legal(s, decrypt, hs) && EndedAsDue(s.world, decrypt, After(s, decrypt, hs).world, id)
  {
    var first := CatchUp(s, decrypt, actionId, tag);
    var now := if s.now >= s.world.auctions[id].deadline then s.now else s.world.auctions[id].deadline;
    var last := DriveToTheEnd(After(s, decrypt, first), decrypt, id, caller, now, actionId, tag, sign);
    hs := first + last;
    AfterSplits(s, decrypt, first, last);
  }

  /** Main result. Every reachable state with a registered TEE has a continuation, which any outside
      account can bring about with a close and a settlement, that ends a live auction as the bids
      placed so far require: cancelled if nothing contends, settled to the top bid at its amount if
      that bidder covers it. If the bidder does not, the auction is left closing. */
  lemma {:induction false} EndIsReachableOncePaid(s: System, decrypt: Decrypt, hs: seq<Happening>, id: U256,
                                                  caller: Address, actionId: Codec.Bytes32, tag: Bytes,
                                                  sign: Codec.Bytes32 -> Bytes)
    returns (more: seq<Happening>, k: nat)
    requires Start(s) && Legal(s, decrypt, hs)
    requires caller != s.world.self && caller != ZERO_ADDRESS
    requires var w := After(s, decrypt, hs).world;
             && id < |w.auctions| && Live(w.auctions[id])
             && w.teeAddress != ZERO_ADDRESS && SignsFor(w.chain, w.teeAddress, sign)
    ensures Legal(s, decrypt, hs + more)
    ensures var w := After(s, decrypt, hs).world;
            && SaysTop(decrypt, w.outbox, k, Due(w, decrypt, id), w.auctions[id].reservePrice)
            && EndedAsDue(w, decrypt, After(s, decrypt, hs + more).world, id)
  {
    ReadyInEveryRun(s, decrypt, hs);
    more := EndFromReady(After(s, decrypt, hs), decrypt, id, caller, actionId, tag, sign);
    AfterSplits(s, decrypt, hs, more);
    k := InOrderSaysTop(After(s, decrypt, hs).world, decrypt, id);
  }

  // ---------------------------------------------------------------- without payment

  /** A closing auction with a winner due. */
  ghost predicate Waiting(w: World, decrypt: Decrypt, id: U256) {
    && id < |w.auctions| && w.auctions[id].phase == Closing && Due(w, decrypt, id).winner != ZERO_ADDRESS
  }

  lemma {:induction false} WaitingStays(w: World, w1: World, decrypt: Decrypt, id: U256, more: seq<Sent>)
    requires Waiting(w, decrypt, id) && Disciplined(w1) && id < |w1.auctions| && w1.auctions[id] == w.auctions[id]
    requires w1.self == w.self && w1.outbox == w.outbox + more
    requires forall s :: s in more ==> !IsBidFor(s, id)
    ensures Waiting(w1, decrypt, id) && Due(w1, decrypt, id) == Due(w, decrypt, id)
  {
    AnswerStays(decrypt, w.outbox, more, id, w.self, w.auctions[id].reservePrice);
  }

  /** Only the settlement of the result due ends a waiting auction, so only payment does. */
  lemma {:induction false} UnpaidStaysClosing(w: World, decrypt: Decrypt, signed: Codec.Signed, tx: Tx, id: U256)
    requires ChainSound(w, decrypt, signed) && Escrowed(w) && Outside(w, tx)
    requires tx.call.SettleWith? ==> Codec.Reliable(w.chain, w.teeAddress, signed, tx.call.result, tx.call.sig)
    requires Waiting(w, decrypt, id) && !Covered(w, decrypt, id)
    ensures id < |Step(w, tx).auctions| && Step(w, tx).auctions[id] == w.auctions[id]
  {
    if Apply(w, tx).Ok? {
      ApplyHasShape(w, tx);
      if tx.call.SettleWith? {
        SettlingIsRight(w, decrypt, signed, tx);
        ApplyResultKeepsEscrow(w, Codec.UnpackResult(tx.call.result.data).value);
      }
    }
  }

  lemma {:induction false} NoBidUnlessOpen(w: World, tx: Tx, id: U256) returns (more: seq<Sent>)
    requires id < |w.auctions| && w.auctions[id].phase != Open
    ensures Step(w, tx).outbox == w.outbox + more && forall s :: s in more ==> !IsBidFor(s, id)
  {
    more := [];
    if Apply(w, tx).Ok? {
      ApplyHasShape(w, tx);
      EffectOnQueue(w, tx, Apply(w, tx).value);
      more := Step(w, tx).outbox[|w.outbox|..];
    }
  }

  lemma {:induction false} UnpaidKeepsWaiting(s: System, decrypt: Decrypt, h: Happening, id: U256)
    requires Ready(s, decrypt) && Possible(s, h) && Waiting(s.world, decrypt, id) && !Covered(s.world, decrypt, id)
    ensures var w1 := Next(s, decrypt, h).world;
            && Waiting(w1, decrypt, id) && w1.auctions[id] == s.world.auctions[id]
            && Due(w1, decrypt, id) == Due(s.world, decrypt, id)
  {
    if h.OnChain? {
      UnpaidStaysClosing(s.world, decrypt, s.signed, h.tx, id);
      NextKeepsReady(s, decrypt, h);
      var more := NoBidUnlessOpen(s.world, h.tx, id);
      WaitingStays(s.world, Step(s.world, h.tx), decrypt, id, more);
    }
  }

  ghost predicate PaidAt(w: World, decrypt: Decrypt, id: U256) {
    Waiting(w, decrypt, id) && Covered(w, decrypt, id)
  }

  /** At some point of the continuation the winner due covered the price due. */
  ghost predicate PaidDuring(s: System, decrypt: Decrypt, more: seq<Happening>, id: U256) {
    exists k :: 0 <= k <= |more| && PaidAt(After(s, decrypt, more[..k]).world, decrypt, id)
  }

  lemma {:induction false} PaidLater(s: System, decrypt: Decrypt, more: seq<Happening>, id: U256)
    requires more != [] && PaidDuring(s, decrypt, more[..|more| - 1], id)
    ensures PaidDuring(s, decrypt, more, id)
  {
    var n := |more| - 1;
    var k :| 0 <= k <= n && PaidAt(After(s, decrypt, more[..n][..k]).world, decrypt, id);
    assert more[..n][..k] == more[..k];
  }

  /** Main result, the complement: as long as the winner due never covers the price, nothing any account
      does in this setting, the seller included, gets the auction out of closing or changes who is due. */
  lemma {:induction false} NobodyEndsAnUnpaidAuction(s: System, decrypt: Decrypt, more: seq<Happening>, id: U256)
    requires Ready(s, decrypt) && Legal(s, decrypt, more) && Waiting(s.world, decrypt, id)
    ensures PaidDuring(s, decrypt, more, id)
         || (var w1 := After(s, decrypt, more).world;
             Waiting(w1, decrypt, id) && w1.auctions[id] == s.world.auctions[id]
             && Due(w1, decrypt, id) == Due(s.world, decrypt, id))
  {
    if more == [] {
    } else {
      var n := |more| - 1;
      NobodyEndsAnUnpaidAuction(s, decrypt, more[..n], id);
      ReadyLater(s, decrypt, more[..n]);
      var mid := After(s, decrypt, more[..n]);
      if PaidDuring(s, decrypt, more[..n], id) {
        PaidLater(s, decrypt, more, id);
      } else {
        assert more[..n][..n] == more[..n];
        assert !PaidAt(mid.world, decrypt, id);
        UnpaidKeepsWaiting(mid, decrypt, more[n], id);
      }
    }
  }

  ghost predicate EndsIn(s: System, decrypt: Decrypt, more: seq<Happening>, id: U256) {
    && Legal(s, decrypt, more) && id < |After(s, decrypt, more).world.auctions|
    && !Live(After(s, decrypt, more).world.auctions[id])
  }

  ghost predicate PaidIn(s: System, decrypt: Decrypt, more: seq<Happening>, id: U256) {
    Legal(s, decrypt, more) && PaidAt(After(s, decrypt, more).world, decrypt, id)
  }

  lemma {:induction false} LegalPrefix(s: System, decrypt: Decrypt, more: seq<Happening>, k: nat)
    requires Legal(s, decrypt, more) && k <= |more|
    ensures Legal(s, decrypt, more[..k])
  {
    assert more == more[..k] + more[k..];
    AfterSplits(s, decrypt, more[..k], more[k..]);
  }

  lemma {:induction false} EndNeedsPayment(t: System, decrypt: Decrypt, more: seq<Happening>, id: U256)
    returns (paid: seq<Happening>)
    requires Ready(t, decrypt) && Waiting(t.world, decrypt, id) && EndsIn(t, decrypt, more, id)
    ensures PaidIn(t, decrypt, paid, id)
  {
    NobodyEndsAnUnpaidAuction(t, decrypt, more, id);
    var k :| 0 <= k <= |more| && PaidAt(After(t, decrypt, more[..k]).world, decrypt, id);
    LegalPrefix(t, decrypt, more, k);
    paid := more[..k];
  }

  lemma {:induction false} PaymentEnds(t: System, decrypt: Decrypt, more: seq<Happening>, id: U256, caller: Address,
                                       actionId: Codec.Bytes32, tag: Bytes, sign: Codec.Bytes32 -> Bytes)
    returns (ending: seq<Happening>)
    requires Ready(t, decrypt) && PaidIn(t, decrypt, more, id)
    requires t.world.teeAddress != ZERO_ADDRESS && SignsFor(t.world.chain, t.world.teeAddress, sign)
    requires caller != t.world.self && caller != ZERO_ADDRESS
    ensures EndsIn(t, decrypt, ending, id)
  {
    ReadyLater(t, decrypt, more);
    var last := EndFromReady(After(t, decrypt, more), decrypt, id, caller, actionId, tag, sign);
    AfterSplits(t, decrypt, more, last);
    ending := more + last;
  }

  /** Main result, exactly: in this setting a closing auction with a contender can still end if and only
      if a state can be reached in which the top bidder covers the price. */
  lemma {:induction false} EndsExactlyThroughPayment(s: System, decrypt: Decrypt, hs: seq<Happening>, id: U256,
                                                  caller: Address, actionId: Codec.Bytes32, tag: Bytes,
                                                  sign: Codec.Bytes32 -> Bytes)
    requires Start(s) && Legal(s, decrypt, hs)
    requires caller != s.world.self && caller != ZERO_ADDRESS
    requires var w := After(s, decrypt, hs).world;
             && Waiting(w, decrypt, id) && w.teeAddress != ZERO_ADDRESS && SignsFor(w.chain, w.teeAddress, sign)
    ensures var t := After(s, decrypt, hs);
            (exists more :: EndsIn(t, decrypt, more, id)) <==> (exists more :: PaidIn(t, decrypt, more, id))
  {
    ReadyInEveryRun(s, decrypt, hs);
    var t := After(s, decrypt, hs);
    if more :| EndsIn(t, decrypt, more, id) {
      var paid := EndNeedsPayment(t, decrypt, more, id);
    }
    if more :| PaidIn(t, decrypt, more, id) {
      var ending := PaymentEnds(t, decrypt, more, id, caller, actionId, tag, sign);
    }
  }
}

/** The whole protocol: the chain emits instructions, one TEE consumes them in order and signs its
    answers, and `settle` accepts exactly what was signed. */
module Protocol {
  import opened Types
  import opened Auction
  import opened Frames
  import opened Escrow
  import opened Queue
  import opened Winner
  import opened Tee
  import opened Handlers
  import Codec

  datatype System = System(
    world: World,
    now: U64,                    // time of the latest block
    delivered: nat,              // instructions the TEE has consumed
    memory: Memory,              // what the TEE holds
    signed: Codec.Signed)        // what the TEE key has signed, and for which chain

  datatype Happening =
    | OnChain(tx: Tx)
    | AtTee(actionId: Codec.Bytes32, tag: Bytes)                  // the TEE consumes the next instruction
    | Elsewhere(chainId: U256, result: Codec.ActionResult)        // the key signs for another chain

  /** Signatures of the registered key are not forged, that key is registered once and for all, and
      block time does not run backwards. */
  ghost predicate Possible(s: System, h: Happening) {
    match h
    case OnChain(tx) =>
      && Outside(s.world, tx) && tx.now >= s.now && (tx.call.SetTee? ==> s.world.teeAddress == ZERO_ADDRESS)
      && (tx.call.SettleWith? ==>
            Codec.Reliable(s.world.chain, s.world.teeAddress, s.signed, tx.call.result, tx.call.sig))
    case AtTee(_, _) => s.delivered < |s.world.outbox|
    case Elsewhere(chainId, _) => chainId != s.world.chain.chainId
  }

  /** The signed answer to an instruction: an acknowledgement, a refusal, or the packed close result. */
  function Answer(s: Memory, decrypt: Decrypt, sent: Sent, actionId: Codec.Bytes32, tag: Bytes): Codec.ActionResult {
    if sent.message.CloseMessage? then
      Codec.ActionResult(Codec.PackResult(ResultOf(BidsOf(s, sent.message.auctionId), sent.message)), actionId, tag, 1)
    else if Place(s, decrypt, sent).1.None? then Codec.ActionResult(Codec.ACKNOWLEDGEMENT, actionId, tag, 1)
    else Codec.ActionResult([], actionId, tag, 0)
  }

  /** Which answer each instruction gets: a close the packed selection, a bid that is taken the 17 bytes of
      the acknowledgement, both reporting success; any other bid an empty failure. */
  lemma AnswerIsExact(s: Memory, decrypt: Decrypt, sent: Sent, actionId: Codec.Bytes32, tag: Bytes)
    ensures var r, m := Answer(s, decrypt, sent, actionId, tag), sent.message;
            && r.actionId == actionId && r.submissionTag == tag
            && (r.status == 1 <==>
                  m.CloseMessage? || (m.auctionId !in s.closed && |m.ciphertext| > 0 && Matches(decrypt, m)))
            && (m.CloseMessage? ==>
                  Codec.UnpackResult(r.data) == Ok(ResultOf(BidsOf(s, m.auctionId), m)) && |r.data| == 128)
            && (!m.CloseMessage? && r.status == 1 ==> r.data == Codec.Ascii("{\"accepted\":true}"))
            && (r.status != 1 ==> r.status == 0 && r.data == [])
  {
    if sent.message.CloseMessage? {
      Codec.UnpackInvertsPack(ResultOf(BidsOf(s, sent.message.auctionId), sent.message));
    } else {
      PlacingIsExact(s, decrypt, sent);
    }
  }

  ghost function Next(s: System, decrypt: Decrypt, h: Happening): System {
    match h
    case OnChain(tx) => s.(world := Step(s.world, tx), now := tx.now)
    case AtTee(actionId, tag) =>
      if s.delivered < |s.world.outbox| then
        var sent := s.world.outbox[s.delivered];
        s.(delivered := s.delivered + 1, memory := Deliver(s.memory, decrypt, sent),
           signed := s.signed + {(s.world.chain.chainId, Answer(s.memory, decrypt, sent, actionId, tag))})
      else s
    case Elsewhere(chainId, result) => s.(signed := s.signed + {(chainId, result)})
  }

  ghost function After(s: System, decrypt: Decrypt, hs: seq<Happening>): System {
    if hs == [] then s else Next(After(s, decrypt, hs[..|hs| - 1]), decrypt, hs[|hs| - 1])
  }

  ghost predicate Legal(s: System, decrypt: Decrypt, hs: seq<Happening>) {
    hs == [] || (Legal(s, decrypt, hs[..|hs| - 1]) && Possible(After(s, decrypt, hs[..|hs| - 1]), hs[|hs| - 1]))
  }

  ghost predicate Start(s: System) {
    Fresh(s.world) && s.delivered == 0 && s.memory == EMPTY && s.signed == {}
  }

  // ---------------------------------------------------------------- what a TEE selects, in order

  /** What a TEE that has consumed `q` in order answers to a close. */
  function InOrder(decrypt: Decrypt, q: seq<Sent>, id: U256, self: Address, reserve: U256): Codec.CloseResult {
    ResultOf(BidsOf(DeliverAll(EMPTY, decrypt, q), id), CloseMessage(id, self, reserve, 0))
  }

  predicate IsBidFor(s: Sent, id: U256) { s.message.PlaceBidMessage? && s.message.auctionId == id }

  lemma OtherInstructionLeavesList(decrypt: Decrypt, s: Memory, sent: Sent, id: U256)
    requires !IsBidFor(sent, id)
    ensures BidsOf(Deliver(s, decrypt, sent), id) == BidsOf(s, id)
  {
  }

  /** Instructions that are not bids for the auction change nothing about its answer. */
  lemma {:induction false} AnswerStays(decrypt: Decrypt, q: seq<Sent>, more: seq<Sent>, id: U256, self: Address,
                                       reserve: U256)
    requires forall s :: s in more ==> !IsBidFor(s, id)
    ensures InOrder(decrypt, q + more, id, self, reserve) == InOrder(decrypt, q, id, self, reserve)
    ensures BidsOf(DeliverAll(EMPTY, decrypt, q + more), id) == BidsOf(DeliverAll(EMPTY, decrypt, q), id)
  {
    if more == [] {
      assert q + more == q;
    } else {
      var n := |more| - 1;
      AnswerStays(decrypt, q, more[..n], id, self, reserve);
      assert (q + more)[..|q + more| - 1] == q + more[..n];
      OtherInstructionLeavesList(decrypt, DeliverAll(EMPTY, decrypt, q + more[..n]), more[n], id);
    }
  }

  lemma NoBidsNoWinner(decrypt: Decrypt, q: seq<Sent>, id: U256, self: Address, reserve: U256)
    requires forall s :: s in q ==> !IsBidFor(s, id)
    ensures InOrder(decrypt, q, id, self, reserve).winner == ZERO_ADDRESS
  {
    AnswerStays(decrypt, [], q, id, self, reserve);
    assert [] + q == q;
  }

  // ---------------------------------------------------------------- what the selection means

  /** The instruction is a bid for auction `id` whose plaintext matches: what an open TEE accepts. */
  predicate Acceptable(decrypt: Decrypt, s: Sent, id: U256) {
    s.message.PlaceBidMessage? && s.message.auctionId == id && |s.message.ciphertext| > 0 && Matches(decrypt, s.message)
  }

  /** Acceptable, made for this contract, and at the reserve. */
  predicate Contends(decrypt: Decrypt, s: Sent, id: U256, self: Address, reserve: U256) {
    Acceptable(decrypt, s, id)
    && Plain(decrypt, s.message).contractAddr == self
    && Plain(decrypt, s.message).amountWei >= reserve
  }

  /** The amount the bidder encrypted. */
  function AmountOf(decrypt: Decrypt, s: Sent): U256
    requires Matches(decrypt, s.message)
  {
    Plain(decrypt, s.message).amountWei
  }

  /** A bid of this amount and time at position `k` comes before `rival` at position `j`. Within one
      amount and time the position decides as long as the 64-bit arrival counter has not wrapped. */
  predicate Ahead(amount: U256, timestamp: U64, k: nat, rivalAmount: U256, rivalTimestamp: U64, j: nat, exact: bool) {
    rivalAmount < amount
    || (rivalAmount == amount && (timestamp < rivalTimestamp || (timestamp == rivalTimestamp && (exact ==> k <= j))))
  }

  ghost predicate Unrivalled(decrypt: Decrypt, q: seq<Sent>, k: nat, id: U256, self: Address, reserve: U256,
                             amount: U256, timestamp: U64) {
    forall j :: 0 <= j < |q| && Contends(decrypt, q[j], id, self, reserve) ==>
      Ahead(amount, timestamp, k, AmountOf(decrypt, q[j]), q[j].timestamp, j, |q| < TWO_64)
  }

  /** Position `k` holds a contending bid, by `winner` for `price`, that is ahead of all others. */
  ghost predicate TopBid(decrypt: Decrypt, q: seq<Sent>, k: nat, id: U256, self: Address, reserve: U256,
                         winner: Address, price: U256) {
    && k < |q| && Contends(decrypt, q[k], id, self, reserve)
    && q[k].message.bidder == winner && AmountOf(decrypt, q[k]) == price
    && Unrivalled(decrypt, q, k, id, self, reserve, price, q[k].timestamp)
  }

  ghost predicate NoContender(decrypt: Decrypt, q: seq<Sent>, id: U256, self: Address, reserve: U256) {
    forall s :: s in q ==> !Contends(decrypt, s, id, self, reserve)
  }

  ghost predicate TopIs(decrypt: Decrypt, q: seq<Sent>, k: nat, id: U256, self: Address, reserve: U256,
                        best: Option<Bid>) {
    match best
    case None => NoContender(decrypt, q, id, self, reserve)
    case Some(b) => TopBid(decrypt, q, k, id, self, reserve, b.bidder, b.amount) && q[k].timestamp == b.timestamp
  }

  lemma RejectedBidStoresNothing(decrypt: Decrypt, s: Memory, sent: Sent, id: U256)
    requires !Acceptable(decrypt, sent, id)
    ensures BidsOf(Deliver(s, decrypt, sent), id) == BidsOf(s, id)
  {
  }

  lemma AcceptedBidIsStored(decrypt: Decrypt, s: Memory, sent: Sent, id: U256) returns (b: Bid)
    requires Acceptable(decrypt, sent, id) && id !in s.closed
    ensures StemsFrom(decrypt, sent, b) && b.arrival == NextArrival(s.counter)
    ensures BidsOf(Deliver(s, decrypt, sent), id) == BidsOf(s, id) + [b]
  {
    b := Encrypted(decrypt, sent, NextArrival(s.counter));
  }

  lemma TopWithOneIdle(decrypt: Decrypt, q: seq<Sent>, sent: Sent, k: nat, id: U256, self: Address, reserve: U256,
                       best: Option<Bid>)
    requires TopIs(decrypt, q, k, id, self, reserve, best) && !Contends(decrypt, sent, id, self, reserve)
    ensures TopIs(decrypt, q + [sent], k, id, self, reserve, best)
  {
    var all := q + [sent];
    assert forall j :: 0 <= j < |q| ==> all[j] == q[j];
  }

  /** A contender takes the top exactly if its stored bid beats the best so far. */
  lemma TopWithOneMore(decrypt: Decrypt, q: seq<Sent>, sent: Sent, k: nat, id: U256, self: Address, reserve: U256,
                       best: Option<Bid>, b: Bid)
    requires TopIs(decrypt, q, k, id, self, reserve, best) && Contends(decrypt, sent, id, self, reserve)
    requires StemsFrom(decrypt, sent, b)
    requires best.Some? && |q| + 1 < TWO_64 ==> best.value.arrival < b.arrival
    ensures if best.None? || Better(b, best.value)
            then TopIs(decrypt, q + [sent], |q|, id, self, reserve, Some(b))
            else TopIs(decrypt, q + [sent], k, id, self, reserve, best)
  {
    var all := q + [sent];
    assert forall j :: 0 <= j < |q| ==> all[j] == q[j] && q[j] in q;
  }

  lemma OpenInOrder(decrypt: Decrypt, q: seq<Sent>, sent: Sent, id: U256)
    requires BidsFirst(q + [sent]) && IsBidFor(sent, id)
    ensures id !in DeliverAll(EMPTY, decrypt, q).closed
  {
    ClosedExactlyByQueue(decrypt, q, id);
    var all := q + [sent];
    assert all[|q|] == sent && forall j :: 0 <= j < |q| ==> all[j] == q[j];
  }

  lemma BestIsOlder(s: Memory, id: U256, self: Address, reserve: U256)
    requires Counted(s) && Total(s) + 1 < TWO_64
    ensures var best := Best(BidsOf(s, id), self, reserve);
            best.Some? ==> best.value.arrival < NextArrival(s.counter)
  {
    BestIsUnbeaten(BidsOf(s, id), self, reserve);
    NewestIsLast(s, id);
  }

  lemma TopAfterDelivery(decrypt: Decrypt, q: seq<Sent>, sent: Sent, k: nat, id: U256, self: Address, reserve: U256)
    returns (k1: nat)
    requires BidsFirst(q + [sent])
    requires TopIs(decrypt, q, k, id, self, reserve, Best(BidsOf(DeliverAll(EMPTY, decrypt, q), id), self, reserve))
    ensures TopIs(decrypt, q + [sent], k1, id, self, reserve,
                  Best(BidsOf(Deliver(DeliverAll(EMPTY, decrypt, q), decrypt, sent), id), self, reserve))
  {
    var s := DeliverAll(EMPTY, decrypt, q);
    var best := Best(BidsOf(s, id), self, reserve);
    k1 := k;
    if !Acceptable(decrypt, sent, id) {
      RejectedBidStoresNothing(decrypt, s, sent, id);
      TopWithOneIdle(decrypt, q, sent, k, id, self, reserve, best);
    } else {
      OpenInOrder(decrypt, q, sent, id);
      var b := AcceptedBidIsStored(decrypt, s, sent, id);
      BestAfterOneMore(BidsOf(s, id), b, self, reserve);
      if !Contends(decrypt, sent, id, self, reserve) {
        TopWithOneIdle(decrypt, q, sent, k, id, self, reserve, best);
      } else {
        DeliveriesCount(decrypt, q);
        if |q| + 1 < TWO_64 {
          BestIsOlder(s, id, self, reserve);
        }
        TopWithOneMore(decrypt, q, sent, k, id, self, reserve, best, b);
        k1 := if best.None? || Better(b, best.value) then |q| else k;
      }
    }
  }

  /** Main result on selection: after a queue in which no bid follows a close of its auction, the TEE
      selects the contending bid with the highest amount, then the earliest time, then the first
      position; and nothing exactly if nothing contends. */
  lemma {:induction false} SelectionIsTop(decrypt: Decrypt, q: seq<Sent>, id: U256, self: Address, reserve: U256)
    returns (k: nat)
    requires BidsFirst(q)
    ensures TopIs(decrypt, q, k, id, self, reserve, Best(BidsOf(DeliverAll(EMPTY, decrypt, q), id), self, reserve))
  {
    if q == [] {
      k := 0;
    } else {
      var n := |q| - 1;
      k := SelectionIsTop(decrypt, q[..n], id, self, reserve);
      k := TopAfterDelivery(decrypt, q[..n], q[n], k, id, self, reserve);
      assert q == q[..n] + [q[n]];
    }
  }

  /** What the in-order answer says about the queue. */
  ghost predicate SaysTop(decrypt: Decrypt, q: seq<Sent>, k: nat, r: Codec.CloseResult, reserve: U256) {
    if r.winner == ZERO_ADDRESS then NoContender(decrypt, q, r.auctionId, r.contractAddr, reserve)
    else TopBid(decrypt, q, k, r.auctionId, r.contractAddr, reserve, r.winner, r.clearingPrice)
  }

  lemma InOrderSaysTop(w: World, decrypt: Decrypt, id: U256) returns (k: nat)
    requires Disciplined(w) && id < |w.auctions|
    ensures SaysTop(decrypt, w.outbox, k, InOrder(decrypt, w.outbox, id, w.self, w.auctions[id].reservePrice),
                    w.auctions[id].reservePrice)
  {
    k := SelectionIsTop(decrypt, w.outbox, id, w.self, w.auctions[id].reservePrice);
    if k < |w.outbox| {
      assert Faithful(w, w.outbox[k]);
    }
  }

  /** The answer to a close, computed from the instructions before it, is the answer about the whole
      queue whenever the TEE gets to it, however many instructions have been emitted since. */
  lemma CloseAnswerIsRight(w: World, decrypt: Decrypt, d: nat)
    requires Disciplined(w) && d < |w.outbox| && w.outbox[d].message.CloseMessage?
    ensures var m := w.outbox[d].message;
            && m.auctionId < |w.auctions|
            && ResultOf(BidsOf(DeliverAll(EMPTY, decrypt, w.outbox[..d]), m.auctionId), m)
               == InOrder(decrypt, w.outbox, m.auctionId, w.self, w.auctions[m.auctionId].reservePrice)
  {
    var m := w.outbox[d].message;
    assert Faithful(w, w.outbox[d]);
    forall s | s in w.outbox[d..] ensures !IsBidFor(s, m.auctionId) {
      var k :| 0 <= k < |w.outbox| - d && w.outbox[d..][k] == s;
      assert w.outbox[d + k] == s;
    }
    AnswerStays(decrypt, w.outbox[..d], w.outbox[d..], m.auctionId, w.self, m.reservePrice);
    assert w.outbox == w.outbox[..d] + w.outbox[d..];
  }

  // ---------------------------------------------------------------- the invariant of every run

  /** A close result is about an auction that no longer takes bids, and is the answer about its queue. */
  ghost predicate RightForQueue(w: World, decrypt: Decrypt, r: Codec.CloseResult) {
    && r.auctionId < |w.auctions| && w.auctions[r.auctionId].phase != Open
    && r == InOrder(decrypt, w.outbox, r.auctionId, w.self, w.auctions[r.auctionId].reservePrice)
  }

  ghost predicate SignedRight(w: World, decrypt: Decrypt, signed: Codec.Signed) {
    forall r :: (w.chain.chainId, r) in signed && r.status == 1 && Codec.UnpackResult(r.data).Ok? ==>
      RightForQueue(w, decrypt, Codec.UnpackResult(r.data).value)
  }

  /** The recorded end of auction `i` is the answer about the queue. */
  ghost predicate EndIsRight(w: World, decrypt: Decrypt, i: U256)
    requires i < |w.auctions|
  {
    var a := w.auctions[i];
    var r := InOrder(decrypt, w.outbox, i, w.self, a.reservePrice);
    && (a.phase == Settled ==> a.winner != ZERO_ADDRESS && r.winner == a.winner && r.clearingPrice == a.clearingPrice)
    && (a.phase == Cancelled ==> r.winner == ZERO_ADDRESS)
    && (a.phase == Open && a.bidCount == 0 ==> forall s :: s in w.outbox ==> !IsBidFor(s, i))
  }

  lemma SignedStaysRight(w: World, w1: World, decrypt: Decrypt, signed: Codec.Signed, more: seq<Sent>)
    requires SignedRight(w, decrypt, signed) && w1.self == w.self && w1.chain == w.chain && w1.outbox == w.outbox + more
    requires |w.auctions| <= |w1.auctions|
    requires forall i :: 0 <= i < |w.auctions| ==> SameQueueTerms(w.auctions[i], w1.auctions[i])
    requires forall i: U256, s :: i < |w.auctions| && w.auctions[i].phase != Open && s in more ==> !IsBidFor(s, i)
    ensures SignedRight(w1, decrypt, signed)
  {
    forall r | (w.chain.chainId, r) in signed && r.status == 1 && Codec.UnpackResult(r.data).Ok?
      ensures RightForQueue(w1, decrypt, Codec.UnpackResult(r.data).value)
    {
      var c := Codec.UnpackResult(r.data).value;
      AnswerStays(decrypt, w.outbox, more, c.auctionId, w.self, w.auctions[c.auctionId].reservePrice);
    }
  }

  /** An auction that did not change, while the queue got nothing but other auctions' bids. */
  lemma EndStaysRight(w: World, w1: World, decrypt: Decrypt, i: U256, more: seq<Sent>)
    requires i < |w.auctions| && EndIsRight(w, decrypt, i) && w1.self == w.self && w1.outbox == w.outbox + more
    requires i < |w1.auctions| && w1.auctions[i] == w.auctions[i]
    requires forall s :: s in more ==> !IsBidFor(s, i)
    ensures EndIsRight(w1, decrypt, i)
  {
    AnswerStays(decrypt, w.outbox, more, i, w.self, w.auctions[i].reservePrice);
  }

  ghost predicate ChainSound(w: World, decrypt: Decrypt, signed: Codec.Signed) {
    && Disciplined(w) && |w.auctions| <= TWO_64 && SignedRight(w, decrypt, signed)
    && forall i :: 0 <= i < |w.auctions| ==> EndIsRight(w, decrypt, i)
  }

  lemma BidKeepsSound(w: World, decrypt: Decrypt, signed: Codec.Signed, caller: Address, now: U64,
                      id: U256, ciphertext: Bytes, w1: World)
    requires ChainSound(w, decrypt, signed) && BidEffect(w, caller, now, id, ciphertext, w1)
    requires caller != ZERO_ADDRESS && caller != w.self
    ensures ChainSound(w1, decrypt, signed)
  {
    BidKeepsDiscipline(w, caller, now, id, ciphertext, w1);
    var more := [Sent(now, PlaceBidMessage(id, caller, ciphertext))];
    SignedStaysRight(w, w1, decrypt, signed, more);
    forall i | 0 <= i < |w1.auctions| ensures EndIsRight(w1, decrypt, i) {
      if i != id {
        EndStaysRight(w, w1, decrypt, i, more);
      }
    }
  }

  lemma CloseKeepsSound(w: World, decrypt: Decrypt, signed: Codec.Signed, now: U64, id: U256, w1: World)
    requires ChainSound(w, decrypt, signed) && CloseEffect(w, now, id, w1)
    ensures ChainSound(w1, decrypt, signed)
  {
    CloseKeepsDiscipline(w, now, id, w1);
    var more := [Sent(now, CloseOf(w, id))];
    SignedStaysRight(w, w1, decrypt, signed, more);
    forall i | 0 <= i < |w1.auctions| ensures EndIsRight(w1, decrypt, i) {
      if i != id {
        EndStaysRight(w, w1, decrypt, i, more);
      }
    }
  }

  lemma CreateKeepsSound(w: World, decrypt: Decrypt, signed: Codec.Signed, caller: Address, now: U64, c: Call,
                         w1: World)
    requires c.Create? && ChainSound(w, decrypt, signed) && CreateEffect(w, caller, now, c, w1)
    ensures ChainSound(w1, decrypt, signed)
  {
    OthersKeepDiscipline(w, w1);
    assert w1.outbox == w.outbox + [];
    SignedStaysRight(w, w1, decrypt, signed, []);
    forall s | s in w.outbox ensures s.message.auctionId < |w.auctions| {
      var k :| 0 <= k < |w.outbox| && w.outbox[k] == s;
      assert Faithful(w, w.outbox[k]);
    }
    forall i | 0 <= i < |w1.auctions| ensures EndIsRight(w1, decrypt, i) {
      if i < |w.auctions| {
        EndStaysRight(w, w1, decrypt, i, []);
      }
    }
  }

  /** Ending auction `id` in a way that is right about the queue. */
  lemma EndKeepsSound(w: World, decrypt: Decrypt, signed: Codec.Signed, id: U256, w1: World)
    requires ChainSound(w, decrypt, signed) && id < |w.auctions| == |w1.auctions|
    requires w1.self == w.self && w1.chain == w.chain && w1.outbox == w.outbox
    requires w1.auctions == w.auctions[id := w1.auctions[id]]
    requires !Live(w1.auctions[id]) && SameQueueTerms(w.auctions[id], w1.auctions[id]) && EndIsRight(w1, decrypt, id)
    ensures ChainSound(w1, decrypt, signed)
  {
    OthersKeepDiscipline(w, w1);
    assert w1.outbox == w.outbox + [];
    SignedStaysRight(w, w1, decrypt, signed, []);
    forall i | 0 <= i < |w1.auctions| ensures EndIsRight(w1, decrypt, i) {
      if i != id {
        EndStaysRight(w, w1, decrypt, i, []);
      }
    }
  }

  lemma SettleKeepsSound(w: World, decrypt: Decrypt, signed: Codec.Signed, r: Codec.CloseResult, w1: World)
    requires ChainSound(w, decrypt, signed) && RightForQueue(w, decrypt, r) && ResultShape(w, r, w1)
    ensures ChainSound(w1, decrypt, signed)
  {
    EndKeepsSound(w, decrypt, signed, r.auctionId, w1);
  }

  lemma CancelKeepsSound(w: World, decrypt: Decrypt, signed: Codec.Signed, caller: Address, id: U256, w1: World)
    requires ChainSound(w, decrypt, signed) && CancelEffect(w, caller, id, w1)
    ensures ChainSound(w1, decrypt, signed)
  {
    assert EndIsRight(w, decrypt, id);
    NoBidsNoWinner(decrypt, w.outbox, id, w.self, w.auctions[id].reservePrice);
    EndKeepsSound(w, decrypt, signed, id, w1);
  }

  lemma QuietKeepsSound(w: World, decrypt: Decrypt, signed: Codec.Signed, w1: World)
    requires ChainSound(w, decrypt, signed)
    requires w1.self == w.self && w1.chain == w.chain && w1.outbox == w.outbox && w1.auctions == w.auctions
    ensures ChainSound(w1, decrypt, signed)
  {
    OthersKeepDiscipline(w, w1);
    assert w1.outbox == w.outbox + [];
    SignedStaysRight(w, w1, decrypt, signed, []);
    forall i | 0 <= i < |w1.auctions| ensures EndIsRight(w1, decrypt, i) {
      EndStaysRight(w, w1, decrypt, i, []);
    }
  }

  /** What settles is signed, so it is right about the queue. */
  lemma SettlingIsRight(w: World, decrypt: Decrypt, signed: Codec.Signed, tx: Tx)
    requires SignedRight(w, decrypt, signed) && tx.call.SettleWith? && Apply(w, tx).Ok?
    requires Codec.Reliable(w.chain, w.teeAddress, signed, tx.call.result, tx.call.sig)
    ensures Codec.UnpackResult(tx.call.result.data).Ok?
    ensures var r := Codec.UnpackResult(tx.call.result.data).value;
            RightForQueue(w, decrypt, r) && ResultShape(w, r, Apply(w, tx).value) && Apply(w, tx) == ApplyResult(w, r)
  {
    SettleShape(w, tx);
    Codec.RecoveredResultWasSigned(w.chain, w.teeAddress, signed, tx.call.result, tx.call.sig);
  }

  lemma TxKeepsSound(w: World, decrypt: Decrypt, signed: Codec.Signed, tx: Tx)
    requires ChainSound(w, decrypt, signed) && Outside(w, tx)
    requires tx.call.SettleWith? ==> Codec.Reliable(w.chain, w.teeAddress, signed, tx.call.result, tx.call.sig)
    ensures ChainSound(Step(w, tx), decrypt, signed)
  {
    if Apply(w, tx).Ok? {
      ApplyHasShape(w, tx);
      var w1 := Apply(w, tx).value;
      match tx.call {
        case Create(_, _, _, _, _, _, _, _) => CreateKeepsSound(w, decrypt, signed, tx.caller, tx.now, tx.call, w1);
        case Bid(id, ciphertext) => BidKeepsSound(w, decrypt, signed, tx.caller, tx.now, id, ciphertext, w1);
        case Close(id) => CloseKeepsSound(w, decrypt, signed, tx.now, id, w1);
        case Cancel(id) => CancelKeepsSound(w, decrypt, signed, tx.caller, id, w1);
        case SettleWith(r, _) =>
          SettlingIsRight(w, decrypt, signed, tx);
          SettleKeepsSound(w, decrypt, signed, Codec.UnpackResult(r.data).value, w1);
        case _ => QuietKeepsSound(w, decrypt, signed, w1);
      }
    }
  }

  // ---------------------------------------------------------------- the TEE's side

  ghost predicate Sound(s: System, decrypt: Decrypt) {
    && ChainSound(s.world, decrypt, s.signed)
    && s.delivered <= |s.world.outbox|
    && s.memory == DeliverAll(EMPTY, decrypt, s.world.outbox[..s.delivered])
  }

  lemma DeliveryKeepsSound(s: System, decrypt: Decrypt, actionId: Codec.Bytes32, tag: Bytes)
    requires Sound(s, decrypt) && s.delivered < |s.world.outbox|
    ensures Sound(Next(s, decrypt, AtTee(actionId, tag)), decrypt)
  {
    var q, d := s.world.outbox, s.delivered;
    assert q[..d + 1][..d] == q[..d];
    if q[d].message.CloseMessage? {
      assert Faithful(s.world, q[d]);
      CloseAnswerIsRight(s.world, decrypt, d);
      Codec.UnpackInvertsPack(ResultOf(BidsOf(s.memory, q[d].message.auctionId), q[d].message));
    } else {
      Codec.AcknowledgementNeverDecodes();
    }
  }

  lemma TxKeepsSystemSound(s: System, decrypt: Decrypt, tx: Tx)
    requires Sound(s, decrypt) && Possible(s, OnChain(tx))
    ensures Sound(Next(s, decrypt, OnChain(tx)), decrypt)
  {
    TxKeepsSound(s.world, decrypt, s.signed, tx);
    QueueGrows(s.world, tx);
    assert Step(s.world, tx).outbox[..s.delivered] == s.world.outbox[..s.delivered];
  }

  lemma {:induction false} SoundInEveryRun(s: System, decrypt: Decrypt, hs: seq<Happening>)
    requires Start(s) && Legal(s, decrypt, hs)
    ensures Sound(After(s, decrypt, hs), decrypt)
    ensures After(s, decrypt, hs).world.self == s.world.self && After(s, decrypt, hs).world.chain == s.world.chain
  {
    if hs == [] {
    } else {
      var n := |hs| - 1;
      SoundInEveryRun(s, decrypt, hs[..n]);
      var mid := After(s, decrypt, hs[..n]);
      match hs[n] {
        case OnChain(tx) =>
          TxKeepsSystemSound(mid, decrypt, tx);
          StepKeepsIdentity(mid.world, tx);
        case AtTee(actionId, tag) =>
          DeliveryKeepsSound(mid, decrypt, actionId, tag);
        case Elsewhere(_, _) =>
      }
    }
  }

  // ---------------------------------------------------------------- the chain's part of a run

  function TxsOf(hs: seq<Happening>): seq<Tx> {
    if hs == [] then []
    else TxsOf(hs[..|hs| - 1]) + (if hs[|hs| - 1].OnChain? then [hs[|hs| - 1].tx] else [])
  }

  /** The TEE never writes the chain: its state is that of running the transactions alone. */
  lemma {:induction false} WorldIsRun(s: System, decrypt: Decrypt, hs: seq<Happening>)
    ensures After(s, decrypt, hs).world == Run(s.world, TxsOf(hs))
  {
    if hs == [] {
    } else {
      var n := |hs| - 1;
      WorldIsRun(s, decrypt, hs[..n]);
      if hs[n].OnChain? {
        var before := TxsOf(hs[..n]);
        assert (before + [hs[n].tx])[..|before|] == before;
      } else {
        assert TxsOf(hs) == TxsOf(hs[..n]);
      }
    }
  }

  // ---------------------------------------------------------------- end to end

  /** `sent` was bid on chain before the deadline and names the recorded winner and price. */
  ghost predicate WonBy(w: World, decrypt: Decrypt, txs: seq<Tx>, i: nat, sent: Sent, id: U256, a: Auction) {
    && Contends(decrypt, sent, id, w.self, a.reservePrice) && BidCommitted(w, txs, i, sent)
    && sent.timestamp < a.deadline
    && sent.message.bidder == a.winner && AmountOf(decrypt, sent) == a.clearingPrice
  }

  /** A committed rival of the top bid is behind it, also in the order of transactions. */
  lemma {:induction false} CommittedRivalIsBehind(w: World, decrypt: Decrypt, txs: seq<Tx>, k: nat, i: nat, j: nat,
                               rival: Sent, id: U256, reserve: U256, winner: Address, price: U256)
    requires TopBid(decrypt, Run(w, txs).outbox, k, id, w.self, reserve, winner, price) && PutAt(w, txs, i, k)
    requires Contends(decrypt, rival, id, w.self, reserve) && BidCommitted(w, txs, j, rival)
    ensures Ahead(price, Run(w, txs).outbox[k].timestamp, i, AmountOf(decrypt, rival), rival.timestamp, j,
                  |Run(w, txs).outbox| < TWO_64)
  {
    CommittedBidIsQueued(w, txs, j, rival);
    var q, p := Run(w, txs).outbox, |Run(w, txs[..j]).outbox|;
    assert Contends(decrypt, q[p], id, w.self, reserve);
    if k <= p {
      EarlierIsQueuedFirst(w, txs, i, j, rival);
    }
  }

  /** Main result. Over any possible run from deployment, every settled auction was won by the sender
      of a bid committed before the deadline, at exactly that bid's amount, which meets the reserve;
      and every other committed bid that contends is behind it: it offers less, or as much later, or
      as much at the same time in a later transaction. */
  lemma {:induction false} SettledMeansHighestBidWon(s: System, decrypt: Decrypt, hs: seq<Happening>, id: U256)
    returns (i: nat, sent: Sent)
    requires Start(s) && Legal(s, decrypt, hs)
    requires var w := After(s, decrypt, hs).world; id < |w.auctions| && w.auctions[id].phase == Settled
    ensures var w := After(s, decrypt, hs).world;
            var a := w.auctions[id];
            && WonBy(s.world, decrypt, TxsOf(hs), i, sent, id, a) && a.clearingPrice >= a.reservePrice
            && forall j, rival: Sent :: Contends(decrypt, rival, id, s.world.self, a.reservePrice)
                                        && BidCommitted(s.world, TxsOf(hs), j, rival) ==>
                 Ahead(a.clearingPrice, sent.timestamp, i, AmountOf(decrypt, rival), rival.timestamp, j,
                       |w.outbox| < TWO_64)
  {
    SoundInEveryRun(s, decrypt, hs);
    WorldIsRun(s, decrypt, hs);
    var w, txs := After(s, decrypt, hs).world, TxsOf(hs);
    var a := w.auctions[id];
    assert EndIsRight(w, decrypt, id);
    var k := InOrderSaysTop(w, decrypt, id);
    sent := w.outbox[k];
    assert Faithful(w, w.outbox[k]);
    i := QueuedBidWasCommitted(s.world, txs, k);
    forall j, rival: Sent | Contends(decrypt, rival, id, s.world.self, a.reservePrice)
        && BidCommitted(s.world, txs, j, rival)
      ensures Ahead(a.clearingPrice, sent.timestamp, i, AmountOf(decrypt, rival), rival.timestamp, j,
              |w.outbox| < TWO_64)
    {
      CommittedRivalIsBehind(s.world, decrypt, txs, k, i, j, rival, id, a.reservePrice, a.winner, a.clearingPrice);
    }
  }

  /** Main result, the other end: an auction that has ended, by its seller or through `settle`, ended
      cancelled exactly when no committed bid contended. */
  lemma {:induction false} CancelledExactlyWithoutContender(s: System, decrypt: Decrypt, hs: seq<Happening>, id: U256)
    requires Start(s) && Legal(s, decrypt, hs)
    requires var w := After(s, decrypt, hs).world; id < |w.auctions| && !Live(w.auctions[id])
    ensures var a := After(s, decrypt, hs).world.auctions[id];
            (a.phase == Cancelled)
            == (forall j, rival: Sent :: Contends(decrypt, rival, id, s.world.self, a.reservePrice) ==>
                  !BidCommitted(s.world, TxsOf(hs), j, rival))
  {
    SoundInEveryRun(s, decrypt, hs);
    WorldIsRun(s, decrypt, hs);
    var w, txs := After(s, decrypt, hs).world, TxsOf(hs);
    var a := w.auctions[id];
    assert EndIsRight(w, decrypt, id);
    if a.phase == Cancelled {
      var k := InOrderSaysTop(w, decrypt, id);
      forall j, rival: Sent | Contends(decrypt, rival, id, s.world.self, a.reservePrice)
        ensures !BidCommitted(s.world, txs, j, rival)
      {
        if BidCommitted(s.world, txs, j, rival) {
          CommittedBidIsQueued(s.world, txs, j, rival);
        }
      }
    } else {
      var i, sent := SettledMeansHighestBidWon(s, decrypt, hs, id);
    }
  }
}

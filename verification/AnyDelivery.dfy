/** What survives when nothing is assumed of delivery: instructions lost, repeated or out of order,
    overlapping handlers, restarts and newly registered TEEs. Optimality needs order; that only real,
    timely bids win does not. */
module AnyDelivery {
  import opened Types
  import opened Auction
  import opened Frames
  import opened Escrow
  import opened Lifecycle
  import opened Queue
  import opened Winner
  import opened Tee
  import opened Handlers
  import opened Protocol
  import Codec

  datatype Site = Site(
    world: World,
    node: Node,                             // the TEE now running, with its handlers in flight
    signed: Codec.Signed)                   // what any registered TEE has signed, and for which chain

  datatype Turn =
    | Mine(tx: Tx)
    | Handle(act: Act, actionId: Codec.Bytes32, tag: Bytes)
    | Restart
    | Elsewhere(chainId: U256, result: Codec.ActionResult)    // a TEE key signs for another chain

  /** Every registered key belongs to a TEE running this extension, and PLACE_BID instructions come
      from the chain. Close instructions may be anything. */
  ghost predicate Allowed(s: Site, t: Turn) {
    match t
    case Mine(tx) =>
      && Outside(s.world, tx)
      && (tx.call.SettleWith? ==>
            Codec.Reliable(s.world.chain, s.world.teeAddress, s.signed, tx.call.result, tx.call.sig))
    case Handle(act, _, _) => act.Begin? ==> act.sent in s.world.outbox
    case Restart => true
    case Elsewhere(chainId, _) => chainId != s.world.chain.chainId
  }

  /** What a handler's step signs: the answer of a close, an acknowledgement, a refusal, or nothing. */
  function Output(n: Node, decrypt: Decrypt, act: Act, actionId: Codec.Bytes32, tag: Bytes): set<Codec.ActionResult> {
    match act
    case Begin(h, sent) =>
      if sent.message.PlaceBidMessage? && CheckOpen(n.memory, sent.message).Some?
      then {Codec.ActionResult([], actionId, tag, 0)} else {}
    case Finish(h) =>
      if h !in n.running || !n.running[h].message.PlaceBidMessage? then {}
      else if Vet(decrypt, n.running[h].message).Good? then
        {Codec.ActionResult(Codec.ACKNOWLEDGEMENT, actionId, tag, 1)}
      else {Codec.ActionResult([], actionId, tag, 0)}
    case CloseNow(m) =>
      if m.CloseMessage?
      then {Codec.ActionResult(Codec.PackResult(ResultOf(BidsOf(n.memory, m.auctionId), m)), actionId, tag, 1)} else {}
  }

  /** The steps of one handler run alone sign together exactly the one answer its instruction gets. */
  lemma OutputsAreTheAnswer(s: Memory, decrypt: Decrypt, sent: Sent, actionId: Codec.Bytes32, tag: Bytes)
    ensures var n, answer := Node(s, map[]), Answer(s, decrypt, sent, actionId, tag);
            if sent.message.CloseMessage? then Output(n, decrypt, CloseNow(sent.message), actionId, tag) == {answer}
            else Output(n, decrypt, Begin(0, sent), actionId, tag)
                 + Output(Do(n, decrypt, Begin(0, sent)), decrypt, Finish(0), actionId, tag) == {answer}
  {
    if sent.message.PlaceBidMessage? && CheckOpen(s, sent.message).None? {
      assert Do(Node(s, map[]), decrypt, Begin(0, sent)).running == map[0 := sent];
    }
  }

  ghost function Take(s: Site, decrypt: Decrypt, t: Turn): Site {
    match t
    case Mine(tx) => s.(world := Step(s.world, tx))
    case Handle(act, actionId, tag) =>
      s.(node := Do(s.node, decrypt, act),
         signed := s.signed + set r | r in Output(s.node, decrypt, act, actionId, tag) :: (s.world.chain.chainId, r))
    case Restart => s.(node := Node(EMPTY, map[]))
    case Elsewhere(chainId, result) => s.(signed := s.signed + {(chainId, result)})
  }

  ghost function Play(s: Site, decrypt: Decrypt, turns: seq<Turn>): Site {
    if turns == [] then s else Take(Play(s, decrypt, turns[..|turns| - 1]), decrypt, turns[|turns| - 1])
  }

  ghost predicate AllAllowed(s: Site, decrypt: Decrypt, turns: seq<Turn>) {
    turns == [] || (AllAllowed(s, decrypt, turns[..|turns| - 1])
                    && Allowed(Play(s, decrypt, turns[..|turns| - 1]), turns[|turns| - 1]))
  }

  ghost predicate AtRest(s: Site) { Fresh(s.world) && s.node == Node(EMPTY, map[]) && s.signed == {} }

  function Mined(turns: seq<Turn>): seq<Tx> {
    if turns == [] then []
    else Mined(turns[..|turns| - 1]) + (if turns[|turns| - 1].Mine? then [turns[|turns| - 1].tx] else [])
  }

  /** The world is that of running the mined transactions, all of them from outside. */
  lemma {:induction false} WorldIsMined(s: Site, decrypt: Decrypt, turns: seq<Turn>)
    requires AllAllowed(s, decrypt, turns)
    ensures Play(s, decrypt, turns).world == Run(s.world, Mined(turns))
    ensures Run(s.world, Mined(turns)).self == s.world.self && Run(s.world, Mined(turns)).chain == s.world.chain
    ensures OutsideRun(s.world, Mined(turns))
  {
    if turns == [] {
    } else {
      var n := |turns| - 1;
      WorldIsMined(s, decrypt, turns[..n]);
      var before := Mined(turns[..n]);
      if turns[n].Mine? {
        assert (before + [turns[n].tx])[..|before|] == before;
        StepKeepsIdentity(Run(s.world, before), turns[n].tx);
      } else {
        assert Mined(turns) == before;
      }
    }
  }

  // ---------------------------------------------------------------- a real bid behind every winner

  predicate Names(decrypt: Decrypt, sent: Sent, id: U256, self: Address, winner: Address, price: U256) {
    && Acceptable(decrypt, sent, id)
    && Plain(decrypt, sent.message).contractAddr == self
    && sent.message.bidder == winner && AmountOf(decrypt, sent) == price
  }

  /** Some queued bid for auction `id` of `self` names this winner and this price. */
  ghost predicate HasBid(decrypt: Decrypt, q: seq<Sent>, id: U256, self: Address, winner: Address, price: U256) {
    exists k :: 0 <= k < |q| && Names(decrypt, q[k], id, self, winner, price)
  }

  ghost predicate WasSent(decrypt: Decrypt, q: seq<Sent>, id: U256, b: Bid) {
    exists k :: 0 <= k < |q| && Acceptable(decrypt, q[k], id) && StemsFrom(decrypt, q[k], b)
  }

  ghost predicate NodeGenuine(decrypt: Decrypt, q: seq<Sent>, n: Node) {
    && (forall h :: h in n.running ==> n.running[h] in q && n.running[h].message.PlaceBidMessage?
                                       && |n.running[h].message.ciphertext| > 0)
    && (forall key: U256, b :: b in BidsOf(n.memory, key) ==> WasSent(decrypt, q, key, b))
  }

  ghost predicate ResultGenuine(decrypt: Decrypt, q: seq<Sent>, c: Codec.CloseResult) {
    c.winner != ZERO_ADDRESS ==> HasBid(decrypt, q, c.auctionId, c.contractAddr, c.winner, c.clearingPrice)
  }

  ghost predicate SignedGenuine(decrypt: Decrypt, q: seq<Sent>, chainId: U256, signed: Codec.Signed) {
    forall r :: (chainId, r) in signed && r.status == 1 && Codec.UnpackResult(r.data).Ok? ==>
      ResultGenuine(decrypt, q, Codec.UnpackResult(r.data).value)
  }

  ghost predicate EndsGenuine(decrypt: Decrypt, w: World) {
    forall i: U256 :: i < |w.auctions| && w.auctions[i].phase == Settled ==>
      HasBid(decrypt, w.outbox, i, w.self, w.auctions[i].winner, w.auctions[i].clearingPrice)
  }

  ghost predicate Genuine(s: Site, decrypt: Decrypt) {
    && NodeGenuine(decrypt, s.world.outbox, s.node)
    && SignedGenuine(decrypt, s.world.outbox, s.world.chain.chainId, s.signed)
    && EndsGenuine(decrypt, s.world)
  }

  lemma HasBidLater(decrypt: Decrypt, q: seq<Sent>, q1: seq<Sent>, id: U256, self: Address,
                    winner: Address, price: U256)
    requires q <= q1 && HasBid(decrypt, q, id, self, winner, price)
    ensures HasBid(decrypt, q1, id, self, winner, price)
  {
    var k :| 0 <= k < |q| && Names(decrypt, q[k], id, self, winner, price);
    assert q1[k] == q[k];
  }

  lemma WasSentLater(decrypt: Decrypt, q: seq<Sent>, q1: seq<Sent>, key: U256, b: Bid)
    requires q <= q1 && WasSent(decrypt, q, key, b)
    ensures WasSent(decrypt, q1, key, b)
  {
    var k :| 0 <= k < |q| && Acceptable(decrypt, q[k], key) && StemsFrom(decrypt, q[k], b);
    assert q1[k] == q[k];
  }

  lemma NodeGenuineLater(decrypt: Decrypt, q: seq<Sent>, q1: seq<Sent>, n: Node)
    requires q <= q1 && NodeGenuine(decrypt, q, n)
    ensures NodeGenuine(decrypt, q1, n)
  {
    forall key: U256, b | b in BidsOf(n.memory, key) ensures WasSent(decrypt, q1, key, b) {
      WasSentLater(decrypt, q, q1, key, b);
    }
  }

  lemma SignedGenuineLater(decrypt: Decrypt, q: seq<Sent>, q1: seq<Sent>, chainId: U256, signed: Codec.Signed)
    requires q <= q1 && SignedGenuine(decrypt, q, chainId, signed)
    ensures SignedGenuine(decrypt, q1, chainId, signed)
  {
    forall r | (chainId, r) in signed && r.status == 1 && Codec.UnpackResult(r.data).Ok?
      ensures ResultGenuine(decrypt, q1, Codec.UnpackResult(r.data).value)
    {
      var c := Codec.UnpackResult(r.data).value;
      if c.winner != ZERO_ADDRESS {
        HasBidLater(decrypt, q, q1, c.auctionId, c.contractAddr, c.winner, c.clearingPrice);
      }
    }
  }

  lemma OthersNeverSettle(w: World, tx: Tx, w1: World, i: U256)
    requires Shape(w, tx, w1) && !tx.call.SettleWith? && i < |w1.auctions| && w1.auctions[i].phase == Settled
    ensures i < |w.auctions| && w.auctions[i] == w1.auctions[i]
  {
  }

  predicate Decides(w: World, tx: Tx, c: Codec.CloseResult) {
    && tx.call.SettleWith? && tx.call.result.status == 1
    && Codec.SignerOf(w.chain, tx.call.result, tx.call.sig) == Ok(w.teeAddress)
    && Codec.UnpackResult(tx.call.result.data) == Ok(c) && c.contractAddr == w.self && c.winner != ZERO_ADDRESS
  }

  /** Only `settle` makes an auction Settled, and it records the decoded result. */
  lemma NewlySettled(w: World, tx: Tx, i: U256)
    requires i < |Step(w, tx).auctions| && Step(w, tx).auctions[i].phase == Settled
    ensures var a := Step(w, tx).auctions[i];
            (i < |w.auctions| && w.auctions[i] == a)
            || Decides(w, tx, Codec.CloseResult(w.self, i, a.winner, a.clearingPrice))
  {
    if Apply(w, tx).Ok? {
      if tx.call.SettleWith? {
        SettleShape(w, tx);
      } else {
        ApplyHasShape(w, tx);
        OthersNeverSettle(w, tx, Apply(w, tx).value, i);
      }
    }
  }

  lemma NewlySettledIsGenuine(w: World, decrypt: Decrypt, signed: Codec.Signed, tx: Tx, i: U256)
    requires SignedGenuine(decrypt, w.outbox, w.chain.chainId, signed) && EndsGenuine(decrypt, w)
    requires tx.call.SettleWith? ==> Codec.Reliable(w.chain, w.teeAddress, signed, tx.call.result, tx.call.sig)
    requires i < |Step(w, tx).auctions| && Step(w, tx).auctions[i].phase == Settled
    ensures HasBid(decrypt, w.outbox, i, w.self, Step(w, tx).auctions[i].winner, Step(w, tx).auctions[i].clearingPrice)
  {
    NewlySettled(w, tx, i);
    var a := Step(w, tx).auctions[i];
    if Decides(w, tx, Codec.CloseResult(w.self, i, a.winner, a.clearingPrice)) {
      Codec.RecoveredResultWasSigned(w.chain, w.teeAddress, signed, tx.call.result, tx.call.sig);
    }
  }

  lemma MiningKeepsEndsGenuine(w: World, decrypt: Decrypt, signed: Codec.Signed, tx: Tx)
    requires SignedGenuine(decrypt, w.outbox, w.chain.chainId, signed) && EndsGenuine(decrypt, w)
    requires tx.call.SettleWith? ==> Codec.Reliable(w.chain, w.teeAddress, signed, tx.call.result, tx.call.sig)
    ensures EndsGenuine(decrypt, Step(w, tx))
  {
    var w1 := Step(w, tx);
    QueueGrows(w, tx);
    StepKeepsIdentity(w, tx);
    forall i: U256 | i < |w1.auctions| && w1.auctions[i].phase == Settled
      ensures HasBid(decrypt, w1.outbox, i, w1.self, w1.auctions[i].winner, w1.auctions[i].clearingPrice)
    {
      NewlySettledIsGenuine(w, decrypt, signed, tx, i);
      HasBidLater(decrypt, w.outbox, w1.outbox, i, w.self, w1.auctions[i].winner, w1.auctions[i].clearingPrice);
    }
  }

  lemma MiningKeepsGenuine(s: Site, decrypt: Decrypt, tx: Tx)
    requires Genuine(s, decrypt) && Allowed(s, Mine(tx))
    ensures Genuine(Take(s, decrypt, Mine(tx)), decrypt)
  {
    var q := Step(s.world, tx).outbox;
    QueueGrows(s.world, tx);
    NodeGenuineLater(decrypt, s.world.outbox, q, s.node);
    StepKeepsIdentity(s.world, tx);
    SignedGenuineLater(decrypt, s.world.outbox, q, s.world.chain.chainId, s.signed);
    MiningKeepsEndsGenuine(s.world, decrypt, s.signed, tx);
  }

  // ---------------------------------------------------------------- the TEE's steps

  lemma ActKeepsNodeGenuine(decrypt: Decrypt, q: seq<Sent>, n: Node, act: Act)
    requires NodeGenuine(decrypt, q, n) && (act.Begin? ==> act.sent in q)
    ensures NodeGenuine(decrypt, q, Do(n, decrypt, act))
  {
    var m := Do(n, decrypt, act);
    forall key: U256, b | b in BidsOf(m.memory, key) ensures WasSent(decrypt, q, key, b) {
      if b !in BidsOf(n.memory, key) {
        var sent := n.running[act.handler];
        var k :| 0 <= k < |q| && q[k] == sent;
        assert Acceptable(decrypt, q[k], key) && StemsFrom(decrypt, q[k], b);
      }
    }
  }

  lemma AnswerIsGenuine(decrypt: Decrypt, q: seq<Sent>, n: Node, m: Message)
    requires NodeGenuine(decrypt, q, n) && m.CloseMessage?
    ensures ResultGenuine(decrypt, q, ResultOf(BidsOf(n.memory, m.auctionId), m))
  {
    var bids := BidsOf(n.memory, m.auctionId);
    BestIsUnbeaten(bids, m.contractAddr, m.reservePrice);
    var best := Best(bids, m.contractAddr, m.reservePrice);
    if best.Some? {
      assert WasSent(decrypt, q, m.auctionId, best.value);
      var k :| 0 <= k < |q| && Acceptable(decrypt, q[k], m.auctionId) && StemsFrom(decrypt, q[k], best.value);
      assert Names(decrypt, q[k], m.auctionId, m.contractAddr, best.value.bidder, best.value.amount);
    }
  }

  lemma HandlingKeepsGenuine(s: Site, decrypt: Decrypt, act: Act, actionId: Codec.Bytes32, tag: Bytes)
    requires Genuine(s, decrypt) && Allowed(s, Handle(act, actionId, tag))
    ensures Genuine(Take(s, decrypt, Handle(act, actionId, tag)), decrypt)
  {
    ActKeepsNodeGenuine(decrypt, s.world.outbox, s.node, act);
    Codec.AcknowledgementNeverDecodes();
    if act.CloseNow? && act.message.CloseMessage? {
      AnswerIsGenuine(decrypt, s.world.outbox, s.node, act.message);
      Codec.UnpackInvertsPack(ResultOf(BidsOf(s.node.memory, act.message.auctionId), act.message));
    }
  }

  lemma {:induction false} GenuineInEveryRun(s: Site, decrypt: Decrypt, turns: seq<Turn>)
    requires AtRest(s) && AllAllowed(s, decrypt, turns)
    ensures Genuine(Play(s, decrypt, turns), decrypt)
  {
    if turns == [] {
    } else {
      var n := |turns| - 1;
      GenuineInEveryRun(s, decrypt, turns[..n]);
      var mid := Play(s, decrypt, turns[..n]);
      match turns[n] {
        case Mine(tx) => MiningKeepsGenuine(mid, decrypt, tx);
        case Handle(act, actionId, tag) => HandlingKeepsGenuine(mid, decrypt, act, actionId, tag);
        case Restart =>
        case Elsewhere(_, _) =>
      }
    }
  }

  /** Main result. Whatever is delivered, in whatever order and interleaving, across restarts and
      re-registrations: every settled auction was won by the sender of a bid committed before the
      deadline, at exactly that bid's amount, which meets the reserve. */
  lemma SettledMeansRealBidWon(s: Site, decrypt: Decrypt, turns: seq<Turn>, id: U256) returns (i: nat, sent: Sent)
    requires AtRest(s) && AllAllowed(s, decrypt, turns)
    requires var w := Play(s, decrypt, turns).world; id < |w.auctions| && w.auctions[id].phase == Settled
    ensures WonBy(s.world, decrypt, Mined(turns), i, sent, id, Play(s, decrypt, turns).world.auctions[id])
  {
    GenuineInEveryRun(s, decrypt, turns);
    WorldIsMined(s, decrypt, turns);
    var w, txs := Play(s, decrypt, turns).world, Mined(turns);
    var a := w.auctions[id];
    var k :| 0 <= k < |w.outbox| && Names(decrypt, w.outbox[k], id, w.self, a.winner, a.clearingPrice);
    sent := w.outbox[k];
    JournalHoldsInEveryRun(s.world, txs, id);
    DisciplineHoldsInEveryRun(s.world, txs);
    assert Faithful(w, w.outbox[k]);
    i := QueuedBidWasCommitted(s.world, txs, k);
  }

  // ---------------------------------------------------------------- reachable sites

  lemma {:induction false} CountedInEveryRun(s: Site, decrypt: Decrypt, turns: seq<Turn>)
    requires AtRest(s)
    ensures Counted(Play(s, decrypt, turns).node.memory)
  {
    EmptyIsCounted();
    if turns == [] {
    } else {
      var n := |turns| - 1;
      CountedInEveryRun(s, decrypt, turns[..n]);
      if turns[n].Handle? {
        DoKeepsCount(Play(s, decrypt, turns[..n]).node, decrypt, turns[n].act);
      }
    }
  }

  /** What every site an allowed run reaches satisfies. */
  ghost predicate Reached(s: Site, decrypt: Decrypt) {
    Genuine(s, decrypt) && Disciplined(s.world) && Counted(s.node.memory)
  }

  lemma ReachedInEveryRun(s: Site, decrypt: Decrypt, turns: seq<Turn>)
    requires AtRest(s) && AllAllowed(s, decrypt, turns)
    ensures Reached(Play(s, decrypt, turns), decrypt)
  {
    GenuineInEveryRun(s, decrypt, turns);
    WorldIsMined(s, decrypt, turns);
    DisciplineHoldsInEveryRun(s.world, Mined(turns));
    CountedInEveryRun(s, decrypt, turns);
  }

  /** A bidder behind an instruction of the queue is not the zero address. */
  lemma QueuedBidderIsReal(s: Site, decrypt: Decrypt, sent: Sent)
    requires Disciplined(s.world) && sent in s.world.outbox && sent.message.PlaceBidMessage?
    ensures sent.message.bidder != ZERO_ADDRESS
  {
    var k :| 0 <= k < |s.world.outbox| && s.world.outbox[k] == sent;
    assert Faithful(s.world, s.world.outbox[k]);
  }

  lemma StoredBidderIsReal(s: Site, decrypt: Decrypt, key: U256, b: Bid)
    requires Reached(s, decrypt) && b in BidsOf(s.node.memory, key)
    ensures b.bidder != ZERO_ADDRESS
  {
    var q := s.world.outbox;
    assert WasSent(decrypt, q, key, b);
    var k :| 0 <= k < |q| && Acceptable(decrypt, q[k], key) && StemsFrom(decrypt, q[k], b);
    QueuedBidderIsReal(s, decrypt, q[k]);
  }

  // ---------------------------------------------------------------- playing turns one by one

  lemma PlayOneMore(s: Site, decrypt: Decrypt, turns: seq<Turn>, t: Turn)
    ensures Play(s, decrypt, turns + [t]) == Take(Play(s, decrypt, turns), decrypt, t)
    ensures AllAllowed(s, decrypt, turns + [t])
       <==> AllAllowed(s, decrypt, turns) && Allowed(Play(s, decrypt, turns), t)
  {
    assert (turns + [t])[..|turns|] == turns;
  }

  lemma PlayFour(s: Site, decrypt: Decrypt, t: Turn, u: Turn, v: Turn, x: Turn)
    ensures var s1 := Take(s, decrypt, t);
            var s2 := Take(s1, decrypt, u);
            var s3 := Take(s2, decrypt, v);
            && Play(s, decrypt, [t] + [u] + [v] + [x]) == Take(s3, decrypt, x)
            && (AllAllowed(s, decrypt, [t] + [u] + [v] + [x])
                <==> Allowed(s, t) && Allowed(s1, u) && Allowed(s2, v) && Allowed(s3, x))
  {
    assert [] + [t] == [t];
    PlayOneMore(s, decrypt, [], t);
    PlayOneMore(s, decrypt, [t], u);
    PlayOneMore(s, decrypt, [t] + [u], v);
    PlayOneMore(s, decrypt, [t] + [u] + [v], x);
  }

  lemma {:induction false} AllAllowedSplits(s: Site, decrypt: Decrypt, first: seq<Turn>, later: seq<Turn>)
    ensures Play(s, decrypt, first + later) == Play(Play(s, decrypt, first), decrypt, later)
    ensures AllAllowed(s, decrypt, first + later)
       <==> AllAllowed(s, decrypt, first) && AllAllowed(Play(s, decrypt, first), decrypt, later)
  {
    if later == [] {
      assert first + later == first;
    } else {
      var k := |later| - 1;
      AllAllowedSplits(s, decrypt, first, later[..k]);
      assert (first + later)[..|first + later| - 1] == first + later[..k];
    }
  }
}

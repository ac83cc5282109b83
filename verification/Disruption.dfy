/** Two concrete runs that end an auction wrongly: presenting the answer to an earlier close instruction
    after a later one was answered, and a restart. */
module Disruption {
  import opened Types
  import opened Sums
  import opened Auction
  import opened Frames
  import opened Escrow
  import opened Settlement
  import opened Winner
  import opened Tee
  import opened Handlers
  import opened Protocol
  import opened AnyDelivery
  import opened Rightness
  import Codec
  import Erc20

  const SELF: Address := 1
  const OWNER: Address := 2
  const SELLER: Address := 3
  const BIDDER: Address := 4
  const TEE: Address := 7
  const TOKEN: Address := 9

  /** Every well-formed signature recovers to the TEE; what is presented below was really signed. */
  function ToTee(digest: Codec.Bytes32, v: Byte, r: Codec.Bytes32, s: Codec.Bytes32): Address { TEE }

  function Anvil(keccak: Codec.Hash): Codec.Chain { Codec.Chain(31337, keccak, ToTee) }

  function NoFee(x: nat): nat { 0 }

  /** The seller holds and has approved the lot of 5, the bidder the price of 6. */
  const LEDGER: Erc20.Coin :=
    Erc20.Coin(map[SELLER := 5, BIDDER := 6], map[(SELLER, SELF) := 5, (BIDDER, SELF) := 6], NoFee)

  function Genesis(keccak: Codec.Hash): World {
    World(Anvil(keccak), SELF, OWNER, TEE, [], {}, false, [], [], map[], map[TOKEN := LEDGER])
  }

  function Launch(keccak: Codec.Hash): Site { Site(Genesis(keccak), Node(EMPTY, map[]), {}) }

  const CREATE: Tx := Tx(0, SELLER, Create("lot", ERC20, TOKEN, 0, 5, TOKEN, 10, 1), true)
  const BID: Tx := Tx(1, BIDDER, Call.Bid(0, [1]), true)
  const CLOSE: Tx := Tx(10, BIDDER, Close(0), true)

  const CLOSE_AGAIN: Tx := Tx(12, BIDDER, Close(0), true)

  const BID_SENT: Sent := Sent(1, PlaceBidMessage(0, BIDDER, [1]))
  const CLOSE_MESSAGE: Message := CloseMessage(0, SELF, 1, 10)

  /** The queue after the first close, and after the second. */
  const ONE_CLOSE: seq<Sent> := [BID_SENT, Sent(10, CLOSE_MESSAGE)]
  const TWO_CLOSES: seq<Sent> := [BID_SENT, Sent(10, CLOSE_MESSAGE), Sent(12, CLOSE_MESSAGE)]

  /** The one ciphertext in play holds the bidder's offer of 6. */
  function Open1(c: Bytes): Option<Payload> { if c == [1] then Some(Payload(0, SELF, BIDDER, 6)) else None }

  /** The instruction id of the queue's position `k`. */
  function IdOf(k: nat): Codec.Bytes32 { Codec.Word(k, 32) }

  const ANY_SIG: Bytes := Codec.Word(0, 65)

  const NOBODY: Codec.CloseResult := Codec.CloseResult(SELF, 0, ZERO_ADDRESS, 0)
  const SOLD: Codec.CloseResult := Codec.CloseResult(SELF, 0, BIDDER, 6)

  // ---------------------------------------------------------------- the chain's part

  lemma LedgerIsSafe()
    ensures CoinSafe(SELF, LEDGER)
  {
    var first: map<Address, nat> := map[SELLER := 5];
    assert first == (map[])[SELLER := 5];
    SumUpdate(map[], SELLER, 5);
    SumUpdate(first, BIDDER, 6);
    assert LEDGER.balances == first[BIDDER := 6];
  }

  lemma GenesisIsFresh(keccak: Codec.Hash)
    ensures Fresh(Genesis(keccak))
  {
    LedgerIsSafe();
  }

  /** The coin ledger once the lot is in escrow. */
  ghost predicate LotIn(c: Erc20.Coin) {
    Erc20.BalanceOf(c, BIDDER) == 6 && Erc20.Allowance(c, BIDDER, SELF) == 6
  }

  lemma Created(keccak: Codec.Hash)
    ensures Apply(Genesis(keccak), CREATE).Ok?
    ensures var w := Apply(Genesis(keccak), CREATE).value;
            TOKEN in w.coins && LotIn(w.coins[TOKEN]) && |w.auctions| == 1
  {
    LedgerIsSafe();
    Erc20.TransferFromEffect(LEDGER, SELF, SELLER, SELF, 5);
  }

  /** Ready to settle: one closing auction, its instructions in the queue, the bidder funded. */
  ghost predicate Staged(w: World, q: seq<Sent>) {
    && Escrowed(w) && w.self == SELF && w.teeAddress == TEE && w.chain.ecrecover == ToTee
    && |w.auctions| == 1 && w.auctions[0].phase == Closing && w.auctions[0].reservePrice == 1
    && w.auctions[0].deadline == 10 && w.auctions[0].payToken == TOKEN
    && w.outbox == q
    && TOKEN in w.coins && LotIn(w.coins[TOKEN])
  }

  lemma StagedFromCreated(w: World)
    requires Escrowed(w) && w.self == SELF && w.teeAddress == TEE && w.chain.ecrecover == ToTee
    requires |w.auctions| == 1 && Opened(w.auctions[0], SELLER, 0, CREATE.call) && w.outbox == []
    requires TOKEN in w.coins && LotIn(w.coins[TOKEN])
    ensures Staged(Step(Step(w, BID), CLOSE), ONE_CLOSE) && Step(Step(w, BID), CLOSE).chain == w.chain
  {
    StepKeepsEscrow(w, BID);
    assert BidEffect(w, BIDDER, 1, 0, [1], Step(w, BID));
    var w1 := Step(w, BID);
    StepKeepsEscrow(w1, CLOSE);
    assert CloseEffect(w1, 10, 0, Step(w1, CLOSE));
    assert w1.outbox == [BID_SENT];
  }

  lemma StagedByThree(keccak: Codec.Hash)
    ensures Staged(Step(Step(Step(Genesis(keccak), CREATE), BID), CLOSE), ONE_CLOSE)
    ensures Step(Step(Step(Genesis(keccak), CREATE), BID), CLOSE).chain == Anvil(keccak)
  {
    var w := Genesis(keccak);
    GenesisIsFresh(keccak);
    Created(keccak);
    ApplyHasShape(w, CREATE);
    StepKeepsEscrow(w, CREATE);
    var w1 := Step(w, CREATE);
    assert w1 == Apply(w, CREATE).value;
    StagedFromCreated(w1);
  }

  /** Closing again changes nothing but the queue. */
  lemma StagedAgain(w: World)
    requires Staged(w, ONE_CLOSE)
    ensures Staged(Step(w, CLOSE_AGAIN), TWO_CLOSES) && Step(w, CLOSE_AGAIN).chain == w.chain
  {
    StepKeepsEscrow(w, CLOSE_AGAIN);
    assert CloseEffect(w, 12, 0, Step(w, CLOSE_AGAIN));
  }

  lemma AnySignatureIsTheTees(chain: Codec.Chain, r: Codec.ActionResult)
    requires chain.ecrecover == ToTee
    ensures Codec.SignerOf(chain, r, ANY_SIG) == Ok(TEE)
  {
    assert ANY_SIG == Codec.Word(0, 64) + [0];
  }

  lemma NoWinnerIsAuthentic(w: World, q: seq<Sent>, r: Codec.ActionResult)
    requires Staged(w, q) && r.status == 1 && r.data == Codec.PackResult(NOBODY)
    ensures Authentic(w, r, ANY_SIG, NOBODY)
  {
    Codec.UnpackInvertsPack(NOBODY);
    AnySignatureIsTheTees(w.chain, r);
  }

  ghost predicate CalledOff(w: World, w1: World) {
    && |w1.auctions| == 1 && w1.auctions[0].phase == Cancelled && w1.auctions[0].reservePrice == 1
    && w1.outbox == w.outbox && w1.self == SELF
  }

  lemma NoWinnerApplies(w: World, q: seq<Sent>)
    requires Staged(w, q)
    ensures ApplyResult(w, NOBODY).Ok? && CalledOff(w, ApplyResult(w, NOBODY).value)
  {
    ApplyResultKeepsEscrow(w, NOBODY);
    ResultHasShape(w, NOBODY);
  }

  function SettleTx(r: Codec.ActionResult): Tx { Tx(20, BIDDER, SettleWith(r, ANY_SIG), true) }

  lemma NoWinnerSettles(w: World, q: seq<Sent>, r: Codec.ActionResult)
    requires Staged(w, q) && r.status == 1 && r.data == Codec.PackResult(NOBODY)
    ensures Settle(w, r, ANY_SIG) == ApplyResult(w, NOBODY)
  {
    NoWinnerIsAuthentic(w, q, r);
    AuthenticApplies(w, r, ANY_SIG, NOBODY);
  }

  lemma StepOfSettle(w: World, r: Codec.ActionResult, w1: World)
    requires Settle(w, r, ANY_SIG) == Ok(w1)
    ensures Step(w, SettleTx(r)) == w1
  {
  }

  /** An answer without a winner, presented, cancels. */
  lemma NoWinnerCancels(w: World, q: seq<Sent>, r: Codec.ActionResult)
    requires Staged(w, q) && r.status == 1 && r.data == Codec.PackResult(NOBODY)
    ensures CalledOff(w, Step(w, SettleTx(r)))
  {
    NoWinnerSettles(w, q, r);
    NoWinnerApplies(w, q);
    StepOfSettle(w, r, ApplyResult(w, NOBODY).value);
  }

  const OPENING: seq<Turn> := [Mine(CREATE)] + [Mine(BID)] + [Mine(CLOSE)]

  /** The site after the chain's three transactions. */
  lemma Opening(keccak: Codec.Hash)
    ensures AtRest(Launch(keccak)) && AllAllowed(Launch(keccak), Open1, OPENING)
    ensures var s := Play(Launch(keccak), Open1, OPENING);
            Staged(s.world, ONE_CLOSE) && s.node == Node(EMPTY, map[]) && s.signed == {}
                && s.world.chain == Anvil(keccak)
  {
    var s := Launch(keccak);
    GenesisIsFresh(keccak);
    StagedByThree(keccak);
    assert [] + [Mine(CREATE)] == [Mine(CREATE)];
    PlayOneMore(s, Open1, [], Mine(CREATE));
    PlayOneMore(s, Open1, [Mine(CREATE)], Mine(BID));
    PlayOneMore(s, Open1, [Mine(CREATE)] + [Mine(BID)], Mine(CLOSE));
    StepKeepsIdentity(Genesis(keccak), CREATE);
    StepKeepsIdentity(Step(Genesis(keccak), CREATE), BID);
  }

  // ---------------------------------------------------------------- an outdated answer

  const STORED: Winner.Bid := Winner.Bid(BIDDER, SELF, 6, 1, 1)

  lemma SelectsNothing()
    ensures ResultOf([], CLOSE_MESSAGE) == Codec.CloseResult(SELF, 0, ZERO_ADDRESS, 0)
  {
  }

  lemma SelectsTheBid()
    ensures ResultOf([STORED], CLOSE_MESSAGE) == Codec.CloseResult(SELF, 0, BIDDER, 6)
  {
    assert [STORED][..0] == [];
    assert Best([STORED][..0], SELF, 1) == None;
  }

  /** What the TEE signs for the close at position `k` of the queue when its selection is `c`. */
  function Signed(c: Codec.CloseResult, k: nat): Codec.ActionResult {
    Codec.ActionResult(Codec.PackResult(c), IdOf(k), [], 1)
  }

  const BEGIN: Turn := Handle(Begin(0, BID_SENT), IdOf(0), [])
  const FINISH: Turn := Handle(Finish(0), IdOf(0), [])

  /** Answering the close at position `k` of the queue. */
  function Answer(k: nat): Turn { Handle(CloseNow(CLOSE_MESSAGE), IdOf(k), []) }

  lemma Beginning(s: Site)
    requires s.node == Node(EMPTY, map[])
    ensures Take(s, Open1, BEGIN) == s.(node := Node(EMPTY, map[0 := BID_SENT]))
  {
    var none: set<Codec.ActionResult> := {};
    assert Output(s.node, Open1, BEGIN.act, IdOf(0), []) == none;
    assert (set r | r in none :: (s.world.chain.chainId, r)) == {};
  }

  lemma Finishing(s: Site)
    requires s.node.memory.bids == map[] && s.node.memory.counter == 0 && s.node.running == map[0 := BID_SENT]
    ensures var t := Take(s, Open1, FINISH);
            && t.world == s.world && s.signed <= t.signed && t.node.memory.closed == s.node.memory.closed
            && BidsOf(t.node.memory, 0) == [STORED]
  {
  }

  lemma Answering(s: Site, c: Codec.CloseResult, k: nat)
    requires ResultOf(BidsOf(s.node.memory, 0), CLOSE_MESSAGE) == c
    ensures var t := Take(s, Open1, Answer(k));
            && t.world == s.world && t.signed == s.signed + {(s.world.chain.chainId, Signed(c, k))}
            && t.node == s.node.(memory := MarkClosed(s.node.memory, 0))
  {
    assert Output(s.node, Open1, Answer(k).act, IdOf(k), []) == {Signed(c, k)};
  }

  /** Before the second close: the handler passes its closed check, and the first close is answered. */
  const EARLY: seq<Turn> := [BEGIN] + [Answer(1)]

  lemma BeginningAndAnswering(s: Site)
    requires s.node == Node(EMPTY, map[])
    ensures var t := Take(Take(s, Open1, BEGIN), Open1, Answer(1));
            && t.world == s.world && t.node == Node(Memory(map[], {0}, 0), map[0 := BID_SENT])
            && t.signed == s.signed + {(s.world.chain.chainId, Signed(NOBODY, 1))}
  {
    Beginning(s);
    SelectsNothing();
    Answering(Take(s, Open1, BEGIN), NOBODY, 1);
  }

  lemma Early(s: Site)
    requires Staged(s.world, ONE_CLOSE) && s.node == Node(EMPTY, map[])
    ensures var t := Play(s, Open1, EARLY);
            && AllAllowed(s, Open1, EARLY) && t.world == s.world
            && t.node == Node(Memory(map[], {0}, 0), map[0 := BID_SENT])
            && t.signed == s.signed + {(s.world.chain.chainId, Signed(NOBODY, 1))}
  {
    assert [] + [BEGIN] == [BEGIN];
    PlayOneMore(s, Open1, [], BEGIN);
    PlayOneMore(s, Open1, [BEGIN], Answer(1));
    BeginningAndAnswering(s);
    assert s.world.outbox[0] == BID_SENT;
  }

  /** Then the second close is mined, the bid lands, and the second close is answered. */
  const LATE: seq<Turn> := [Mine(CLOSE_AGAIN)] + [FINISH] + [Answer(2)]

  lemma ClosingAgain(s: Site)
    requires Staged(s.world, ONE_CLOSE)
    ensures var t := Take(s, Open1, Mine(CLOSE_AGAIN));
            && Allowed(s, Mine(CLOSE_AGAIN)) && Staged(t.world, TWO_CLOSES) && t.world.chain == s.world.chain
            && t.node == s.node && t.signed == s.signed
  {
    StagedAgain(s.world);
  }

  /** The bid lands, and the second close is answered. */
  lemma LandingAndAnswering(s: Site)
    requires s.node == Node(Memory(map[], {0}, 0), map[0 := BID_SENT])
    ensures var t := Take(Take(s, Open1, FINISH), Open1, Answer(2));
            t.world == s.world && s.signed <= t.signed && (s.world.chain.chainId, Signed(SOLD, 2)) in t.signed
  {
    Finishing(s);
    SelectsTheBid();
    Answering(Take(s, Open1, FINISH), SOLD, 2);
  }

  lemma Late(s: Site)
    requires Staged(s.world, ONE_CLOSE) && s.node == Node(Memory(map[], {0}, 0), map[0 := BID_SENT])
    ensures var t := Play(s, Open1, LATE);
            && AllAllowed(s, Open1, LATE) && Staged(t.world, TWO_CLOSES) && t.world.chain == s.world.chain
            && s.signed <= t.signed && (t.world.chain.chainId, Signed(SOLD, 2)) in t.signed
  {
    assert [] + [Mine(CLOSE_AGAIN)] == [Mine(CLOSE_AGAIN)];
    PlayOneMore(s, Open1, [], Mine(CLOSE_AGAIN));
    PlayOneMore(s, Open1, [Mine(CLOSE_AGAIN)], FINISH);
    PlayOneMore(s, Open1, [Mine(CLOSE_AGAIN)] + [FINISH], Answer(2));
    ClosingAgain(s);
    LandingAndAnswering(Take(s, Open1, Mine(CLOSE_AGAIN)));
  }

  lemma IdsDiffer()
    ensures IdOf(1) != IdOf(2)
  {
    Codec.WordRoundTrip(1);
    Codec.WordRoundTrip(2);
  }

  /** A `settle` that first compares the action id with that of the latest close instruction. */
  function SettleLatest(w: World, r: Codec.ActionResult, sig: Bytes, latest: Codec.Bytes32): Result<World> {
    if r.actionId != latest then Revert(BadResultData) else Settle(w, r, sig)
  }

  lemma SoldSettles(w: World)
    requires Staged(w, TWO_CLOSES)
    ensures Settle(w, Signed(SOLD, 2), ANY_SIG).Ok?
  {
    Codec.UnpackInvertsPack(SOLD);
    AnySignatureIsTheTees(w.chain, Signed(SOLD, 2));
    AuthenticApplies(w, Signed(SOLD, 2), ANY_SIG, SOLD);
    ApplyResultKeepsEscrow(w, SOLD);
  }

  lemma EarlyRun(keccak: Codec.Hash)
    ensures AtRest(Launch(keccak)) && AllAllowed(Launch(keccak), Open1, OPENING + EARLY)
    ensures var mid := Play(Launch(keccak), Open1, OPENING + EARLY);
            && Staged(mid.world, ONE_CLOSE) && mid.node == Node(Memory(map[], {0}, 0), map[0 := BID_SENT])
            && mid.signed == {(mid.world.chain.chainId, Signed(NOBODY, 1))}
  {
    Opening(keccak);
    Early(Play(Launch(keccak), Open1, OPENING));
    AllAllowedSplits(Launch(keccak), Open1, OPENING, EARLY);
  }

  lemma LateRun(keccak: Codec.Hash)
    ensures AllAllowed(Launch(keccak), Open1, OPENING + EARLY + LATE)
    ensures var before := Play(Launch(keccak), Open1, OPENING + EARLY + LATE);
            && Staged(before.world, TWO_CLOSES)
            && (before.world.chain.chainId, Signed(NOBODY, 1)) in before.signed
            && (before.world.chain.chainId, Signed(SOLD, 2)) in before.signed
  {
    EarlyRun(keccak);
    Late(Play(Launch(keccak), Open1, OPENING + EARLY));
    AllAllowedSplits(Launch(keccak), Open1, OPENING + EARLY, LATE);
  }

  /** Presenting the first answer, after the second was signed, is allowed and cancels. */
  lemma FirstAnswerCancels(s: Site)
    requires Staged(s.world, TWO_CLOSES) && (s.world.chain.chainId, Signed(NOBODY, 1)) in s.signed
    ensures var last := Mine(SettleTx(Signed(NOBODY, 1)));
            var w := Take(s, Open1, last).world;
            Allowed(s, last) && |w.auctions| == 1 && w.auctions[0].phase == Cancelled
  {
    NoWinnerCancels(s.world, TWO_CLOSES, Signed(NOBODY, 1));
    Codec.SignedIsReliable(s.world.chain, TEE, s.signed, Signed(NOBODY, 1), ANY_SIG);
  }

  /** The first close is in the queue, the second is not, and only the first answer is signed. */
  ghost predicate OnlyFirstAnswered(s: Site) {
    && s.world.outbox == ONE_CLOSE
    && (s.world.chain.chainId, Signed(NOBODY, 1)) in s.signed
    && (s.world.chain.chainId, Signed(SOLD, 2)) !in s.signed
  }

  /** Both are in the queue, both answers are signed under different ids, and comparing the action id with
      that of the latest close would refuse the first answer and accept the second. */
  ghost predicate BothAnswered(s: Site) {
    && s.world.outbox == TWO_CLOSES
    && (s.world.chain.chainId, Signed(NOBODY, 1)) in s.signed
    && (s.world.chain.chainId, Signed(SOLD, 2)) in s.signed
    && Signed(NOBODY, 1).actionId == IdOf(1) != IdOf(2) == Signed(SOLD, 2).actionId
    && SettleLatest(s.world, Signed(NOBODY, 1), ANY_SIG, IdOf(2)).Revert?
    && SettleLatest(s.world, Signed(SOLD, 2), ANY_SIG, IdOf(2)).Ok?
  }

  lemma StagedIdsTell(s: Site)
    requires Staged(s.world, TWO_CLOSES)
    requires (s.world.chain.chainId, Signed(NOBODY, 1)) in s.signed
             && (s.world.chain.chainId, Signed(SOLD, 2)) in s.signed
    ensures BothAnswered(s)
  {
    IdsDiffer();
    SoldSettles(s.world);
  }

  lemma FirstThenBoth(keccak: Codec.Hash)
    ensures AtRest(Launch(keccak)) && OnlyFirstAnswered(Play(Launch(keccak), Open1, OPENING + EARLY))
    ensures BothAnswered(Play(Launch(keccak), Open1, OPENING + EARLY + LATE))
  {
    EarlyRun(keccak);
    LateRun(keccak);
    IdsDiffer();
    assert Signed(NOBODY, 1).actionId != Signed(SOLD, 2).actionId;
    StagedIdsTell(Play(Launch(keccak), Open1, OPENING + EARLY + LATE));
  }

  /** A run with two close instructions. The first is answered and the answer signed before the second
      is mined; the second answer, under another action id, names a funded bidder and would settle. Yet
      presenting the first answer cancels the auction. Comparing the action id with the latest close
      instruction would have refused the first answer and accepted the second. */
  lemma {:induction false} OutdatedAnswerCancels(keccak: Codec.Hash)
    returns (early: seq<Turn>, late: seq<Turn>, last: Turn)
    ensures AtRest(Launch(keccak)) && AllAllowed(Launch(keccak), Open1, early + late + [last])
    ensures OnlyFirstAnswered(Play(Launch(keccak), Open1, early))
    ensures BothAnswered(Play(Launch(keccak), Open1, early + late))
    ensures last == Mine(SettleTx(Signed(NOBODY, 1)))
    ensures var w := Play(Launch(keccak), Open1, early + late + [last]).world;
            |w.auctions| == 1 && w.auctions[0].phase == Cancelled
  {
    FirstThenBoth(keccak);
    LateRun(keccak);
    early, late, last := OPENING + EARLY, LATE, Mine(SettleTx(Signed(NOBODY, 1)));
    FirstAnswerCancels(Play(Launch(keccak), Open1, early + late));
    PlayOneMore(Launch(keccak), Open1, early + late, last);
  }

  // ---------------------------------------------------------------- a restart

  const FORGETTING: seq<Turn> := [BEGIN] + [FINISH] + [Restart] + [Answer(1)]

  lemma Forgetting(s: Site)
    requires Staged(s.world, ONE_CLOSE) && s.node == Node(EMPTY, map[])
    ensures var t := Play(s, Open1, FORGETTING);
            && AllAllowed(s, Open1, FORGETTING) && t.world == s.world
            && (t.world.chain.chainId, Signed(NOBODY, 1)) in t.signed
  {
    PlayFour(s, Open1, BEGIN, FINISH, Restart, Answer(1));
    Beginning(s);
    var s1 := Take(s, Open1, BEGIN);
    Finishing(s1);
    SelectsNothing();
    Answering(Take(Take(s1, Open1, FINISH), Open1, Restart), NOBODY, 1);
    assert s.world.outbox[0] == BID_SENT;
  }

  lemma MissesTheBid(q: seq<Sent>)
    requires BID_SENT in q
    ensures Contends(Open1, BID_SENT, 0, SELF, 1) && !RightAbout(Open1, q, NOBODY, 1)
  {
  }

  /** A run in which a bid that meets the reserve is mined, delivered and accepted, the TEE restarts, and
      its signed answer cancels the auction: the answer is not right about the queue. */
  lemma RestartCancels(keccak: Codec.Hash) returns (turns: seq<Turn>, last: Turn)
    ensures AtRest(Launch(keccak)) && AllAllowed(Launch(keccak), Open1, turns + [last])
    ensures last == Mine(SettleTx(Signed(NOBODY, 1)))
    ensures var w := Play(Launch(keccak), Open1, turns + [last]).world;
            && |w.auctions| == 1 && w.auctions[0].phase == Cancelled
            && BID_SENT in w.outbox && Contends(Open1, BID_SENT, 0, w.self, w.auctions[0].reservePrice)
            && !RightAbout(Open1, w.outbox, NOBODY, w.auctions[0].reservePrice)
  {
    Opening(keccak);
    Forgetting(Play(Launch(keccak), Open1, OPENING));
    AllAllowedSplits(Launch(keccak), Open1, OPENING, FORGETTING);
    turns, last := OPENING + FORGETTING, Mine(SettleTx(Signed(NOBODY, 1)));
    var before := Play(Launch(keccak), Open1, turns);
    NoWinnerCancels(before.world, ONE_CLOSE, Signed(NOBODY, 1));
    Codec.SignedIsReliable(before.world.chain, TEE, before.signed, Signed(NOBODY, 1), ANY_SIG);
    PlayOneMore(Launch(keccak), Open1, turns, last);
    assert before.world.outbox[0] == BID_SENT;
    MissesTheBid(before.world.outbox);
  }
}

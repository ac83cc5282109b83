/** Presenting an earlier answer after a later close. `settle` verifies a signature over the action id but
    compares it with nothing, so any signed answer about a closing auction will do. This is harmless
    exactly when the answers cannot differ; here, the answers of one TEE process. */
module Replay {
  import opened Types
  import opened Auction
  import opened Frames
  import opened Settlement
  import opened Winner
  import opened Tee
  import opened Handlers
  import opened Reclose
  import opened AnyDelivery
  import opened Progress
  import Codec

  // ---------------------------------------------------------------- two answers before one contract

  /** Any signed results with these contents settle to the same world. */
  ghost predicate SettleAlike(w: World, c: Codec.CloseResult, d: Codec.CloseResult) {
    forall r, sig, r1, sig1 :: Authentic(w, r, sig, c) && Authentic(w, r1, sig1, d) ==>
        Settle(w, r, sig) == Settle(w, r1, sig1)
  }

  /** The result with content `c` and the given action id, signed. */
  function SignedWith(w: World, c: Codec.CloseResult, actionId: Codec.Bytes32): Codec.ActionResult {
    Codec.ActionResult(Codec.PackResult(c), actionId, [], 1)
  }

  lemma SignedWithIsAuthentic(w: World, c: Codec.CloseResult, actionId: Codec.Bytes32, sign: Codec.Bytes32 -> Bytes)
    requires w.teeAddress != ZERO_ADDRESS && SignsFor(w.chain, w.teeAddress, sign) && c.contractAddr == w.self
    ensures var r := SignedWith(w, c, actionId);
            Authentic(w, r, sign(Codec.Digest(w.chain.keccak, w.chain.chainId, r)), c)
  {
    Codec.UnpackInvertsPack(c);
  }

  /** The record an answer leaves behind tells which answer it was. */
  lemma RecordTellsAnswer(w: World, c: Codec.CloseResult, d: Codec.CloseResult, w1: World)
    requires ResultShape(w, c, w1) && ResultShape(w, d, w1) && d.winner != ZERO_ADDRESS
    requires d.auctionId == c.auctionId && d.contractAddr == c.contractAddr
    ensures c == d
  {
    var a := w1.auctions[c.auctionId];
    assert a.phase == Settled && a.winner == d.winner && a.clearingPrice == d.clearingPrice;
    assert a.winner == c.winner && a.clearingPrice == c.clearingPrice;
  }

  /** Different answers about the same auction end it differently, if the first ends it at all. */
  lemma AnswersEndDifferently(w: World, c: Codec.CloseResult, d: Codec.CloseResult)
    requires ApplyResult(w, c).Ok? && c != d && d.winner != ZERO_ADDRESS
    requires d.auctionId == c.auctionId && d.contractAddr == c.contractAddr
    ensures ApplyResult(w, c) != ApplyResult(w, d)
  {
    ResultHasShape(w, c);
    ResultHasShape(w, d);
    var w1 := ApplyResult(w, c).value;
    if ResultShape(w, d, w1) {
      RecordTellsAnswer(w, c, d, w1);
    }
  }

  /** If the first answer would settle, the second settles alike exactly if it is the same answer. */
  lemma SettleAlikeExactlyIfEqual(w: World, c: Codec.CloseResult, d: Codec.CloseResult, sign: Codec.Bytes32 -> Bytes)
    requires !w.entered && w.teeAddress != ZERO_ADDRESS && SignsFor(w.chain, w.teeAddress, sign)
    requires ApplyResult(w, c).Ok? && c.contractAddr == w.self && d.winner != ZERO_ADDRESS
    requires d.auctionId == c.auctionId && d.contractAddr == c.contractAddr
    ensures SettleAlike(w, c, d) ==> c == d
  {
    var id := seq(32, _ => 0);
    var r, r1 := SignedWith(w, c, id), SignedWith(w, d, id);
    var sig := sign(Codec.Digest(w.chain.keccak, w.chain.chainId, r));
    var sig1 := sign(Codec.Digest(w.chain.keccak, w.chain.chainId, r1));
    SignedWithIsAuthentic(w, c, id, sign);
    SignedWithIsAuthentic(w, d, id, sign);
    AuthenticApplies(w, r, sig, c);
    AuthenticApplies(w, r1, sig1, d);
    if c != d {
      AnswersEndDifferently(w, c, d);
    }
  }

  /** Two signed results with the same content settle alike, whatever their action ids. */
  lemma SameContentSettlesAlike(w: World, c: Codec.CloseResult)
    ensures SettleAlike(w, c, c)
  {
    forall r, sig, r1, sig1 | Authentic(w, r, sig, c) && Authentic(w, r1, sig1, c)
      ensures Settle(w, r, sig) == Settle(w, r1, sig1)
    {
      if !w.entered {
        AuthenticApplies(w, r, sig, c);
        AuthenticApplies(w, r1, sig1, c);
      }
    }
  }

  // ---------------------------------------------------------------- what an overtaker does

  predicate Unbroken(turns: seq<Turn>) { forall t :: t in turns ==> t != Restart }

  function ActsOf(turns: seq<Turn>): seq<Act> {
    if turns == [] then []
    else ActsOf(turns[..|turns| - 1]) + (if turns[|turns| - 1].Handle? then [turns[|turns| - 1].act] else [])
  }

  lemma {:induction false} ExecOneMore(n: Node, decrypt: Decrypt, acts: seq<Act>, act: Act)
    ensures Exec(n, decrypt, acts + [act]) == Do(Exec(n, decrypt, acts), decrypt, act)
  {
    assert (acts + [act])[..|acts|] == acts;
  }

  lemma TakenNode(s: Site, decrypt: Decrypt, t: Turn)
    requires t != Restart
    ensures Take(s, decrypt, t).node == if t.Handle? then Do(s.node, decrypt, t.act) else s.node
  {
  }

  lemma {:induction false} NodeIsExec(s: Site, decrypt: Decrypt, turns: seq<Turn>)
    requires Unbroken(turns)
    ensures Play(s, decrypt, turns).node == Exec(s.node, decrypt, ActsOf(turns)) && |ActsOf(turns)| <= |turns|
  {
    if turns == [] {
    } else {
      var n := |turns| - 1;
      assert forall t :: t in turns[..n] ==> t in turns;
      NodeIsExec(s, decrypt, turns[..n]);
      assert turns[n] in turns;
      TakenNode(Play(s, decrypt, turns[..n]), decrypt, turns[n]);
      if turns[n].Handle? {
        ExecOneMore(s.node, decrypt, ActsOf(turns[..n]), turns[n].act);
      } else {
        assert ActsOf(turns) == ActsOf(turns[..n]);
      }
    }
  }

  /** Letting an overtaker finish gives another answer, with a real winner. */
  lemma OvertakerAnswers(s: Site, decrypt: Decrypt, m: Message, h: nat, turn: Turn)
    requires Reached(s, decrypt) && m.CloseMessage?
    requires InFlight(s.node, h, m.auctionId) && Overtakes(decrypt, s.node.running[h], Selected(s.node, m), m)
    requires turn.Handle? && turn.act == Finish(h)
    ensures var n1 := Take(s, decrypt, turn).node;
            AnswerAt(n1, m) != AnswerAt(s.node, m) && AnswerAt(n1, m).winner != ZERO_ADDRESS
  {
    OvertakerChangesAnswer(s.node, decrypt, m, h);
    assert [Finish(h)][..0] == [];
    assert Exec(s.node, decrypt, [Finish(h)]) == Do(s.node, decrypt, Finish(h));
    var b := FinishingAppends(s.node, decrypt, m.auctionId, h);
    BestAfterOneMore(BidsOf(s.node.memory, m.auctionId), b, m.contractAddr, m.reservePrice);
    QueuedBidderIsReal(s, decrypt, s.node.running[h]);
  }

  // ---------------------------------------------------------------- over runs

  /** In every continuation without a restart, the answer then current settles in `w` as the one now
      current does. */
  ghost predicate ReplayIsHarmlessUntilRestart(s: Site, decrypt: Decrypt, m: Message, w: World)
    requires m.CloseMessage?
  {
    forall more :: AllAllowed(s, decrypt, more) && Unbroken(more) && Total(s.node.memory) + |more| < TWO_64 ==>
      SettleAlike(w, AnswerAt(s.node, m), AnswerAt(Play(s, decrypt, more).node, m))
  }

  lemma WithoutOvertaker(s: Site, decrypt: Decrypt, m: Message, w: World)
    requires m.CloseMessage? && m.auctionId in s.node.memory.closed && Counted(s.node.memory)
    requires NobodyOvertakes(s.node, decrypt, m)
    ensures ReplayIsHarmlessUntilRestart(s, decrypt, m, w)
  {
    forall more | AllAllowed(s, decrypt, more) && Unbroken(more) && Total(s.node.memory) + |more| < TWO_64
      ensures SettleAlike(w, AnswerAt(s.node, m), AnswerAt(Play(s, decrypt, more).node, m))
    {
      NodeIsExec(s, decrypt, more);
      HoldingInEveryContinuation(s.node, decrypt, m, ActsOf(more));
      SameContentSettlesAlike(w, AnswerAt(s.node, m));
    }
  }

  lemma WithOvertaker(s: Site, decrypt: Decrypt, m: Message, h: nat, w: World, sign: Codec.Bytes32 -> Bytes)
    requires Reached(s, decrypt) && m.CloseMessage? && Total(s.node.memory) + 1 < TWO_64
    requires InFlight(s.node, h, m.auctionId) && Overtakes(decrypt, s.node.running[h], Selected(s.node, m), m)
    requires ApplyResult(w, AnswerAt(s.node, m)).Ok? && m.contractAddr == w.self && !w.entered
    requires w.teeAddress != ZERO_ADDRESS && SignsFor(w.chain, w.teeAddress, sign)
    ensures !ReplayIsHarmlessUntilRestart(s, decrypt, m, w)
  {
    var turn := Handle(Finish(h), seq(32, _ => 0), []);
    var more := [turn];
    assert more[..0] == [];
    assert Play(s, decrypt, more[..0]) == s && AllAllowed(s, decrypt, more[..0]);
    assert Play(s, decrypt, more) == Take(s, decrypt, turn) && AllAllowed(s, decrypt, more);
    OvertakerAnswers(s, decrypt, m, h, turn);
    SettleAlikeExactlyIfEqual(w, AnswerAt(s.node, m), AnswerAt(Play(s, decrypt, more).node, m), sign);
    assert Unbroken(more);
  }

  /** Main result on replay within one TEE process. Let an allowed run reach a site at which auction `id`
      is closed, and let its current answer be one that would settle at `w`, now or later. Presenting it
      settles to the same end as presenting any answer this process signs later, if and only if no bid in
      flight overtakes. `Ends` has the case of restarts. */
  lemma {:induction false} ReplayUntilRestartIsHarmlessExactlyWithoutOvertaker(
    start: Site, decrypt: Decrypt, turns: seq<Turn>, m: Message, w: World, sign: Codec.Bytes32 -> Bytes)
    requires AtRest(start) && AllAllowed(start, decrypt, turns) && m.CloseMessage?
    requires var s := Play(start, decrypt, turns);
             && m.auctionId in s.node.memory.closed && Total(s.node.memory) + 1 < TWO_64
             && ApplyResult(w, AnswerAt(s.node, m)).Ok?
    requires m.contractAddr == w.self && !w.entered && w.teeAddress != ZERO_ADDRESS
             && SignsFor(w.chain, w.teeAddress, sign)
    ensures var s := Play(start, decrypt, turns);
            ReplayIsHarmlessUntilRestart(s, decrypt, m, w) <==> NobodyOvertakes(s.node, decrypt, m)
  {
    var s := Play(start, decrypt, turns);
    ReachedInEveryRun(start, decrypt, turns);
    if NobodyOvertakes(s.node, decrypt, m) {
      WithoutOvertaker(s, decrypt, m, w);
    } else {
      var h :| InFlight(s.node, h, m.auctionId) && Overtakes(decrypt, s.node.running[h], Selected(s.node, m), m);
      WithOvertaker(s, decrypt, m, h, w, sign);
    }
  }

}

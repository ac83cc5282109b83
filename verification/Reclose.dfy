/** Closing again while handlers overlap: when the answer of a closed auction is final, exactly. */
module Reclose {
  import opened Types
  import opened Auction
  import opened Winner
  import opened Tee
  import opened Handlers
  import Codec

  /** What a close of `m` answers at `n`. */
  function AnswerAt(n: Node, m: Message): Codec.CloseResult
    requires m.CloseMessage?
  {
    ResultOf(BidsOf(n.memory, m.auctionId), m)
  }

  function Selected(n: Node, m: Message): Option<Bid>
    requires m.CloseMessage?
  {
    Best(BidsOf(n.memory, m.auctionId), m.contractAddr, m.reservePrice)
  }

  /** No continuation changes the answer. The bound keeps the 64-bit arrival counter from wrapping. */
  ghost predicate AnswerIsFinal(n: Node, decrypt: Decrypt, m: Message)
    requires m.CloseMessage?
  {
    forall acts :: Total(n.memory) + |acts| < TWO_64 ==> AnswerAt(Exec(n, decrypt, acts), m) == AnswerAt(n, m)
  }

  /** The bid in `sent`, appended now, would replace the selected bid by one of another bidder or price. */
  predicate Overtakes(decrypt: Decrypt, sent: Sent, selected: Option<Bid>, m: Message)
    requires m.CloseMessage?
  {
    && Matches(decrypt, sent.message)
    && var b := Encrypted(decrypt, sent, 0);
       && Eligible(b, m.contractAddr, m.reservePrice)
       && (|| selected.None? || b.amount > selected.value.amount
           || (b.amount == selected.value.amount && b.timestamp < selected.value.timestamp
               && b.bidder != selected.value.bidder))
  }

  ghost predicate NobodyOvertakes(n: Node, decrypt: Decrypt, m: Message)
    requires m.CloseMessage?
  {
    forall h :: InFlight(n, h, m.auctionId) ==> !Overtakes(decrypt, n.running[h], Selected(n, m), m)
  }

  lemma FinishingAppends(n: Node, decrypt: Decrypt, key: U256, h: nat) returns (b: Bid)
    requires InFlight(n, h, key) && Matches(decrypt, n.running[h].message)
    ensures StemsFrom(decrypt, n.running[h], b) && b.arrival == NextArrival(n.memory.counter)
    ensures BidsOf(Do(n, decrypt, Finish(h)).memory, key) == BidsOf(n.memory, key) + [b]
  {
    b := Encrypted(decrypt, n.running[h], NextArrival(n.memory.counter));
  }

  lemma OvertakerChangesAnswer(n: Node, decrypt: Decrypt, m: Message, h: nat)
    requires m.CloseMessage? && InFlight(n, h, m.auctionId) && Overtakes(decrypt, n.running[h], Selected(n, m), m)
    ensures AnswerAt(Exec(n, decrypt, [Finish(h)]), m) != AnswerAt(n, m)
  {
    var b := FinishingAppends(n, decrypt, m.auctionId, h);
    BestAfterOneMore(BidsOf(n.memory, m.auctionId), b, m.contractAddr, m.reservePrice);
    assert [Finish(h)][..0] == [];
    assert Exec(n, decrypt, [Finish(h)]) == Do(n, decrypt, Finish(h));
  }

  // ---------------------------------------------------------------- without an overtaker

  /** The selection at `p` names the bidder and the price selected at `n`, and is no later. */
  predicate SameAnswer(was: Option<Bid>, now: Option<Bid>) {
    was.Some? == now.Some?
    && (was.Some? ==> && was.value.bidder == now.value.bidder && was.value.amount == now.value.amount
                      && now.value.timestamp <= was.value.timestamp)
  }

  ghost predicate Holding(n: Node, p: Node, m: Message, acts: nat)
    requires m.CloseMessage?
  {
    && m.auctionId in p.memory.closed && SameAnswer(Selected(n, m), Selected(p, m))
    && (forall h :: InFlight(p, h, m.auctionId) ==> InFlight(n, h, m.auctionId) && n.running[h] == p.running[h])
    && Counted(p.memory) && Total(p.memory) <= Total(n.memory) + acts
  }

  lemma LateBidHolds(n: Node, p: Node, decrypt: Decrypt, m: Message, b: Bid, sent: Sent)
    requires m.CloseMessage? && SameAnswer(Selected(n, m), Selected(p, m)) && Counted(p.memory)
             && Total(p.memory) + 1 < TWO_64
    requires StemsFrom(decrypt, sent, b) && b.arrival == NextArrival(p.memory.counter)
    requires !Overtakes(decrypt, sent, Selected(n, m), m)
    ensures SameAnswer(Selected(n, m), Best(BidsOf(p.memory, m.auctionId) + [b], m.contractAddr, m.reservePrice))
  {
    var bids := BidsOf(p.memory, m.auctionId);
    BestAfterOneMore(bids, b, m.contractAddr, m.reservePrice);
    BestIsUnbeaten(bids, m.contractAddr, m.reservePrice);
    NewestIsLast(p.memory, m.auctionId);
  }

  lemma ActGrowsTotal(n: Node, decrypt: Decrypt, act: Act)
    ensures Total(n.memory) <= Total(Do(n, decrypt, act).memory) <= Total(n.memory) + 1
  {
    if act.Finish? && act.handler in n.running && n.running[act.handler].message.PlaceBidMessage? {
      var sent := n.running[act.handler];
      if Vet(decrypt, sent.message).Good? {
        AppendGrowsTotal(n.memory, Vet(decrypt, sent.message).payload, sent.timestamp);
      }
    }
  }

  lemma ActKeepsHolding(n: Node, p: Node, decrypt: Decrypt, m: Message, act: Act, acts: nat)
    requires m.CloseMessage? && NobodyOvertakes(n, decrypt, m) && Holding(n, p, m, acts)
    requires Total(n.memory) + acts + 1 < TWO_64
    ensures Holding(n, Do(p, decrypt, act), m, acts + 1)
  {
    DoKeepsCount(p, decrypt, act);
    ActGrowsTotal(p, decrypt, act);
    var key := m.auctionId;
    var q := Do(p, decrypt, act);
    if act.Finish? && InFlight(p, act.handler, key) && p.running[act.handler].message.PlaceBidMessage?
       && Vet(decrypt, p.running[act.handler].message).Good? {
      var b := FinishingAppends(p, decrypt, key, act.handler);
      LateBidHolds(n, p, decrypt, m, b, p.running[act.handler]);
    } else {
      assert BidsOf(q.memory, key) == BidsOf(p.memory, key);
    }
    forall h | InFlight(q, h, key) ensures InFlight(p, h, key) && q.running[h] == p.running[h] {
    }
  }

  lemma {:induction false} HoldingInEveryContinuation(n: Node, decrypt: Decrypt, m: Message, acts: seq<Act>)
    requires m.CloseMessage? && m.auctionId in n.memory.closed && Counted(n.memory)
    requires NobodyOvertakes(n, decrypt, m) && Total(n.memory) + |acts| < TWO_64
    ensures Holding(n, Exec(n, decrypt, acts), m, |acts|)
  {
    if acts == [] {
    } else {
      var k := |acts| - 1;
      HoldingInEveryContinuation(n, decrypt, m, acts[..k]);
      ActKeepsHolding(n, Exec(n, decrypt, acts[..k]), decrypt, m, acts[k], k);
    }
  }

  /** Main result: once an auction is closed, its answer is final exactly when no bid still in flight
      overtakes the selected one. Serialized handlers leave nothing in flight. */
  lemma AnswerIsFinalExactlyWithoutOvertaker(n: Node, decrypt: Decrypt, m: Message)
    requires m.CloseMessage? && m.auctionId in n.memory.closed && Counted(n.memory) && Total(n.memory) + 1 < TWO_64
    ensures AnswerIsFinal(n, decrypt, m) <==> NobodyOvertakes(n, decrypt, m)
  {
    if NobodyOvertakes(n, decrypt, m) {
      forall acts | Total(n.memory) + |acts| < TWO_64 ensures AnswerAt(Exec(n, decrypt, acts), m) == AnswerAt(n, m) {
        HoldingInEveryContinuation(n, decrypt, m, acts);
      }
    } else {
      var h :| InFlight(n, h, m.auctionId) && Overtakes(decrypt, n.running[h], Selected(n, m), m);
      OvertakerChangesAnswer(n, decrypt, m, h);
      assert Total(n.memory) + |[Finish(h)]| < TWO_64;
    }
  }

  /** So asking again need not reproduce the result: a bid that passed its closed check before the
      close and is appended after it wins the second close and lost the first. */
  lemma ClosingAgainCanDiffer() returns (decrypt: Decrypt, acts: seq<Act>)
    ensures |acts| == 4 && acts[1].CloseNow? && acts[1].message.CloseMessage? && acts[3] == acts[1]
    ensures var start := Node(EMPTY, map[]);
            && ResultAt(start, decrypt, acts, 1).winner == ZERO_ADDRESS
            && ResultAt(start, decrypt, acts, 3).winner != ZERO_ADDRESS
  {
    var start := Node(EMPTY, map[]);
    var sent := Sent(1, PlaceBidMessage(0, 7, [1]));
    var close := CloseNow(CloseMessage(0, 5, 10, 2));
    decrypt := c => if c == [1] then Some(Payload(0, 5, 7, 10)) else None;
    acts := [Begin(0, sent), close, Finish(0), close];
    assert acts[..3][..2] == acts[..2] && acts[..2][..1] == acts[..1] && acts[..1][..0] == [];
    assert Exec(start, decrypt, acts[..0]) == start;
    var begun := Do(start, decrypt, acts[0]);
    assert Exec(start, decrypt, acts[..1]) == begun;
    var closed := Do(begun, decrypt, acts[1]);
    assert Exec(start, decrypt, acts[..2]) == closed;
    var finished := Do(closed, decrypt, acts[2]);
    assert Exec(start, decrypt, acts[..3]) == finished;
    var b := FinishingAppends(closed, decrypt, 0, 0);
    BestAfterOneMore([], b, 5, 10);
  }
}

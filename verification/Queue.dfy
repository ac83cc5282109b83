/** The instructions the contract emits: which can occur, and in which order. */
module Queue {
  import opened Types
  import opened Auction
  import opened Frames
  import opened Escrow
  import opened Tee

  /** An instruction in the queue agrees with the auction it names: a bid came from an outside account
      before the deadline; a close carries that auction's fixed terms, from the deadline on. */
  ghost predicate Faithful(w: World, s: Sent) {
    var id := s.message.auctionId;
    && id < |w.auctions|
    && match s.message
       case PlaceBidMessage(_, bidder, ciphertext) =>
         bidder != ZERO_ADDRESS && bidder != w.self && |ciphertext| > 0 && s.timestamp < w.auctions[id].deadline
       case CloseMessage(_, _, _, _) =>
         s.message == CloseOf(w, id) && s.timestamp >= w.auctions[id].deadline && w.auctions[id].phase != Open
  }

  /** No bid of an auction comes after a close of it. */
  predicate BidsFirst(outbox: seq<Sent>) {
    forall j, k :: 0 <= j < k < |outbox| && outbox[j].message.CloseMessage? && outbox[k].message.PlaceBidMessage? ==>
      outbox[j].message.auctionId != outbox[k].message.auctionId
  }

  ghost predicate Disciplined(w: World) {
    && (forall k :: 0 <= k < |w.outbox| ==> Faithful(w, w.outbox[k]))
    && BidsFirst(w.outbox)
  }

  predicate SameQueueTerms(a: Auction, b: Auction) {
    a.deadline == b.deadline && a.reservePrice == b.reservePrice && (a.phase != Open ==> b.phase != Open)
  }

  /** The queue stays faithful when auctions keep their terms and never reopen. */
  lemma FaithfulLater(w: World, w1: World, s: Sent)
    requires Faithful(w, s) && w1.self == w.self && |w.auctions| <= |w1.auctions|
    requires forall i :: 0 <= i < |w.auctions| ==> SameQueueTerms(w.auctions[i], w1.auctions[i])
    ensures Faithful(w1, s)
  {
  }

  lemma BidKeepsDiscipline(w: World, caller: Address, now: U64, id: U256, ciphertext: Bytes, w1: World)
    requires Disciplined(w) && BidEffect(w, caller, now, id, ciphertext, w1)
    requires caller != ZERO_ADDRESS && caller != w.self
    ensures Disciplined(w1)
  {
    forall k | 0 <= k < |w.outbox| ensures Faithful(w1, w1.outbox[k]) {
      FaithfulLater(w, w1, w.outbox[k]);
    }
    forall j | 0 <= j < |w.outbox| && w.outbox[j].message.CloseMessage? ensures w.outbox[j].message.auctionId != id {
      assert Faithful(w, w.outbox[j]);
    }
  }

  lemma CloseKeepsDiscipline(w: World, now: U64, id: U256, w1: World)
    requires Disciplined(w) && CloseEffect(w, now, id, w1)
    ensures Disciplined(w1)
  {
    forall k | 0 <= k < |w.outbox| ensures Faithful(w1, w1.outbox[k]) {
      FaithfulLater(w, w1, w.outbox[k]);
    }
  }

  lemma OthersKeepDiscipline(w: World, w1: World)
    requires Disciplined(w) && w1.self == w.self && w1.outbox == w.outbox && |w.auctions| <= |w1.auctions|
    requires forall i :: 0 <= i < |w.auctions| ==> SameQueueTerms(w.auctions[i], w1.auctions[i])
    ensures Disciplined(w1)
  {
    forall k | 0 <= k < |w.outbox| ensures Faithful(w1, w1.outbox[k]) {
      FaithfulLater(w, w1, w.outbox[k]);
    }
  }

  lemma StepKeepsDiscipline(w: World, tx: Tx)
    requires Disciplined(w) && Outside(w, tx)
    ensures Disciplined(Step(w, tx))
  {
    ApplyHasShape(w, tx);
    if Apply(w, tx).Ok? {
      var w1 := Apply(w, tx).value;
      match tx.call {
        case Bid(id, ciphertext) => BidKeepsDiscipline(w, tx.caller, tx.now, id, ciphertext, w1);
        case Close(id) => CloseKeepsDiscipline(w, tx.now, id, w1);
        case SettleWith(_, _) =>
          var result :| ResultShape(w, result, w1);
          OthersKeepDiscipline(w, w1);
        case _ => OthersKeepDiscipline(w, w1);
      }
    }
  }

  lemma {:induction false} DisciplineHoldsInEveryRun(w: World, txs: seq<Tx>)
    requires Fresh(w) && OutsideRun(w, txs)
    ensures Disciplined(Run(w, txs)) && Run(w, txs).self == w.self
  {
    if txs == [] {
    } else {
      var n := |txs| - 1;
      DisciplineHoldsInEveryRun(w, txs[..n]);
      var mid := Run(w, txs[..n]);
      assert txs[n] in txs;
      StepKeepsDiscipline(mid, txs[n]);
      StepKeepsIdentity(mid, txs[n]);
    }
  }

  lemma DisciplineOrdersQueue(w: World, j: nat, k: nat)
    requires Disciplined(w) && j < |w.outbox| && k < |w.outbox|
    requires w.outbox[j].message.auctionId == w.outbox[k].message.auctionId && w.outbox[j].message.CloseMessage?
    ensures if w.outbox[k].message.PlaceBidMessage? then k < j else w.outbox[k].message == w.outbox[j].message
  {
    assert Faithful(w, w.outbox[j]) && Faithful(w, w.outbox[k]);
  }

  /** Main result on instructions: in every run each bid instruction of an auction precedes each of its
      close instructions, and all close instructions of one auction carry the same message. */
  lemma BidsPrecedeCloses(w: World, txs: seq<Tx>, j: nat, k: nat)
    requires Fresh(w) && OutsideRun(w, txs)
    requires j < |Run(w, txs).outbox| && k < |Run(w, txs).outbox|
    requires var q := Run(w, txs).outbox; q[j].message.auctionId == q[k].message.auctionId && q[j].message.CloseMessage?
    ensures var q := Run(w, txs).outbox;
            if q[k].message.PlaceBidMessage? then k < j else q[k].message == q[j].message
  {
    DisciplineHoldsInEveryRun(w, txs);
    DisciplineOrdersQueue(Run(w, txs), j, k);
  }

  // ---------------------------------------------------------------- the queue is the history of bids

  function BidTx(sent: Sent): Tx
    requires sent.message.PlaceBidMessage?
  {
    Tx(sent.timestamp, sent.message.bidder, Call.Bid(sent.message.auctionId, sent.message.ciphertext), true)
  }

  /** Transaction `i` of the run was a committed bid, by the bidder and at the time of `sent`. */
  ghost predicate BidCommitted(w: World, txs: seq<Tx>, i: nat, sent: Sent)
    requires sent.message.PlaceBidMessage?
  {
    && i < |txs| && txs[i] == BidTx(sent) && Apply(Run(w, txs[..i]), txs[i]).Ok?
  }

  /** A committed call adds to the queue the instruction of a bid or of a close, or nothing. */
  lemma EffectOnQueue(w: World, tx: Tx, w1: World)
    requires Shape(w, tx, w1)
    ensures w1.outbox == w.outbox
            + match tx.call
              case Bid(id, ciphertext) => [Sent(tx.now, PlaceBidMessage(id, tx.caller, ciphertext))]
              case Close(id) => if id < |w.auctions| then [Sent(tx.now, CloseOf(w, id))] else []
              case _ => []
  {
    if tx.call.SettleWith? {
      var result :| ResultShape(w, result, w1);
    }
  }

  lemma QueueGrows(w: World, tx: Tx)
    ensures w.outbox <= Step(w, tx).outbox
  {
    ApplyHasShape(w, tx);
    if Apply(w, tx).Ok? {
      EffectOnQueue(w, tx, Apply(w, tx).value);
    }
  }

  lemma {:induction false} QueueGrowsInRun(w: World, txs: seq<Tx>, i: nat)
    requires i <= |txs|
    ensures Run(w, txs[..i]).outbox <= Run(w, txs).outbox
  {
    if i == |txs| {
      assert txs[..i] == txs;
    } else {
      var n := |txs| - 1;
      QueueGrowsInRun(w, txs[..n], i);
      assert txs[..n][..i] == txs[..i];
      QueueGrows(Run(w, txs[..n]), txs[n]);
    }
  }

  /** A step puts a bid instruction at the end of the queue exactly by committing that bid. */
  lemma NewestInQueue(w: World, tx: Tx, sent: Sent)
    requires sent.message.PlaceBidMessage?
    ensures Step(w, tx).outbox == w.outbox + [sent] <==> Apply(w, tx).Ok? && tx == BidTx(sent)
    ensures |Step(w, tx).outbox| <= |w.outbox| + 1
  {
    ApplyHasShape(w, tx);
    if Apply(w, tx).Ok? {
      EffectOnQueue(w, tx, Apply(w, tx).value);
      assert Step(w, tx).outbox == w.outbox + [sent] ==> Step(w, tx).outbox[|w.outbox|] == sent;
    }
  }

  /** Position `p` of the queue is where the `i`-th transaction of the run put its instruction. */
  ghost predicate PutAt(w: World, txs: seq<Tx>, i: nat, p: nat) {
    i < |txs| && |Run(w, txs[..i]).outbox| == p
  }

  lemma BidPutsLast(w: World, tx: Tx, p: nat)
    requires |w.outbox| <= p < |Step(w, tx).outbox| && Step(w, tx).outbox[p].message.PlaceBidMessage?
    ensures p == |w.outbox| && Apply(w, tx).Ok? && tx == BidTx(Step(w, tx).outbox[p])
  {
    QueueGrows(w, tx);
    NewestInQueue(w, tx, Step(w, tx).outbox[p]);
    assert Step(w, tx).outbox == w.outbox + [Step(w, tx).outbox[p]];
  }

  lemma CommittedLater(w: World, txs: seq<Tx>, i: nat, sent: Sent, p: nat)
    requires sent.message.PlaceBidMessage? && txs != []
    requires BidCommitted(w, txs[..|txs| - 1], i, sent) && PutAt(w, txs[..|txs| - 1], i, p)
    ensures BidCommitted(w, txs, i, sent) && PutAt(w, txs, i, p)
  {
    assert txs[..|txs| - 1][..i] == txs[..i];
  }

  /** Every bid instruction in the queue was put there by a transaction of its bidder, at its
      timestamp. */
  lemma {:induction false} QueuedBidWasCommitted(w: World, txs: seq<Tx>, p: nat) returns (i: nat)
    requires Fresh(w) && p < |Run(w, txs).outbox| && Run(w, txs).outbox[p].message.PlaceBidMessage?
    ensures BidCommitted(w, txs, i, Run(w, txs).outbox[p]) && PutAt(w, txs, i, p)
  {
    var n := |txs| - 1;
    var sent := Run(w, txs).outbox[p];
    if p < |Run(w, txs[..n]).outbox| {
      QueueGrows(Run(w, txs[..n]), txs[n]);
      i := QueuedBidWasCommitted(w, txs[..n], p);
      CommittedLater(w, txs, i, sent, p);
    } else {
      i := n;
      BidPutsLast(Run(w, txs[..n]), txs[n], p);
    }
  }

  /** Every committed bid is in the queue from then on, where it was put. */
  lemma {:induction false} CommittedBidIsQueued(w: World, txs: seq<Tx>, i: nat, sent: Sent)
    requires sent.message.PlaceBidMessage? && BidCommitted(w, txs, i, sent)
    ensures var p := |Run(w, txs[..i]).outbox|; p < |Run(w, txs).outbox| && Run(w, txs).outbox[p] == sent
  {
    var before := Run(w, txs[..i]);
    assert txs[..i + 1][..i] == txs[..i];
    NewestInQueue(before, txs[i], sent);
    QueueGrowsInRun(w, txs, i + 1);
  }

  /** The queue keeps the order of the transactions. */
  lemma {:induction false} EarlierIsQueuedFirst(w: World, txs: seq<Tx>, i: nat, j: nat, sent: Sent)
    requires i < |txs| && sent.message.PlaceBidMessage? && BidCommitted(w, txs, j, sent)
    requires |Run(w, txs[..i]).outbox| <= |Run(w, txs[..j]).outbox|
    ensures i <= j
  {
    if j < i {
      assert txs[..i][..j] == txs[..j] && txs[..i][j] == txs[j];
      CommittedBidIsQueued(w, txs[..i], j, sent);
    }
  }

  // ---------------------------------------------------------------- what an in-order TEE makes of it

  /** A TEE fed a queue in order knows an auction as closed exactly if a close of it was among what it
      was fed. */
  lemma {:induction false} ClosedExactlyByQueue(decrypt: Decrypt, sents: seq<Sent>, key: U256)
    ensures key in DeliverAll(EMPTY, decrypt, sents).closed
       <==> exists k :: 0 <= k < |sents| && sents[k].message.CloseMessage? && sents[k].message.auctionId == key
  {
    if sents == [] {
    } else {
      var n := |sents| - 1;
      ClosedExactlyByQueue(decrypt, sents[..n], key);
      if exists k :: 0 <= k < |sents| && sents[k].message.CloseMessage? && sents[k].message.auctionId == key {
        var k :| 0 <= k < |sents| && sents[k].message.CloseMessage? && sents[k].message.auctionId == key;
        assert k < n ==> sents[..n][k] == sents[k];
      }
      if key in DeliverAll(EMPTY, decrypt, sents[..n]).closed {
        var k :| 0 <= k < n && sents[..n][k].message.CloseMessage? && sents[..n][k].message.auctionId == key;
        assert sents[k].message.auctionId == key;
      }
    }
  }

  /** Fed in order, the TEE never turns away a mined bid as "already closed". */
  lemma {:induction false} InOrderTeeNeverRefusesAsClosed(w: World, txs: seq<Tx>, decrypt: Decrypt, k: nat)
    requires Fresh(w) && OutsideRun(w, txs)
    requires k < |Run(w, txs).outbox| && Run(w, txs).outbox[k].message.PlaceBidMessage?
    ensures var q := Run(w, txs).outbox;
            CheckOpen(DeliverAll(EMPTY, decrypt, q[..k]), q[k].message).None?
  {
    DisciplineHoldsInEveryRun(w, txs);
    var w1 := Run(w, txs);
    var q := w1.outbox;
    assert Faithful(w1, q[k]);
    ClosedExactlyByQueue(decrypt, q[..k], q[k].message.auctionId);
  }
}

/** When a TEE's answer is right about the queue although anything may have happened to delivery:
    exactly when nothing better is missing from what the TEE holds. */
module Rightness {
  import opened Types
  import opened Auction
  import opened Frames
  import opened Winner
  import opened Tee
  import opened Handlers
  import opened Protocol
  import opened AnyDelivery
  import Codec

  /** What the TEE would answer to the contract's own close of auction `id`. */
  function AnswerFor(s: Site, id: U256): Codec.CloseResult
    requires id < |s.world.auctions|
  {
    ResultOf(BidsOf(s.node.memory, id), CloseOf(s.world, id))
  }

  ghost predicate Has(decrypt: Decrypt, sent: Sent, bids: seq<Bid>) {
    exists b :: b in bids && StemsFrom(decrypt, sent, b)
  }

  /** A contending bid of this winner at this price. */
  predicate Fits(decrypt: Decrypt, sent: Sent, r: Codec.CloseResult, reserve: U256) {
    && Contends(decrypt, sent, r.auctionId, r.contractAddr, reserve)
    && sent.message.bidder == r.winner && AmountOf(decrypt, sent) == r.clearingPrice
  }

  /** No contender of the queue offers more, or as much earlier than `timestamp`. */
  ghost predicate NoneBetter(decrypt: Decrypt, q: seq<Sent>, r: Codec.CloseResult, reserve: U256, timestamp: U64) {
    forall s :: s in q && Contends(decrypt, s, r.auctionId, r.contractAddr, reserve) ==>
      AmountOf(decrypt, s) < r.clearingPrice || (AmountOf(decrypt, s) == r.clearingPrice && timestamp <= s.timestamp)
  }

  /** The answer names the bidder and the price of a best contender of the queue, or nothing contends. */
  ghost predicate RightAbout(decrypt: Decrypt, q: seq<Sent>, r: Codec.CloseResult, reserve: U256) {
    if r.winner == ZERO_ADDRESS then NoContender(decrypt, q, r.auctionId, r.contractAddr, reserve)
    else exists s :: s in q && Fits(decrypt, s, r, reserve) && NoneBetter(decrypt, q, r, reserve, s.timestamp)
  }

  /** A contender that outbids the answer, or ties it earlier than every bid that fits the answer. */
  ghost predicate Displaces(decrypt: Decrypt, q: seq<Sent>, sent: Sent, r: Codec.CloseResult, reserve: U256) {
    && Contends(decrypt, sent, r.auctionId, r.contractAddr, reserve)
    && (|| r.winner == ZERO_ADDRESS
        || AmountOf(decrypt, sent) > r.clearingPrice
        || (&& AmountOf(decrypt, sent) == r.clearingPrice
            && forall s :: s in q && Fits(decrypt, s, r, reserve) ==> sent.timestamp < s.timestamp))
  }

  ghost predicate NothingBetterIsMissing(decrypt: Decrypt, q: seq<Sent>, bids: seq<Bid>, r: Codec.CloseResult,
                                         reserve: U256) {
    forall s :: s in q && !Has(decrypt, s, bids) ==> !Displaces(decrypt, q, s, r, reserve)
  }

  lemma HeldIsNotBetter(decrypt: Decrypt, sent: Sent, bids: seq<Bid>, id: U256, self: Address, reserve: U256)
    requires Contends(decrypt, sent, id, self, reserve) && Has(decrypt, sent, bids)
    ensures var best := Best(bids, self, reserve);
            && best.Some?
            && (AmountOf(decrypt, sent) < best.value.amount
                || (AmountOf(decrypt, sent) == best.value.amount && best.value.timestamp <= sent.timestamp))
  {
    BestIsUnbeaten(bids, self, reserve);
    var b :| b in bids && StemsFrom(decrypt, sent, b);
    assert Eligible(b, self, reserve);
  }

  /** The earliest of the bids that fit an answer. */
  lemma {:induction false} EarliestFit(decrypt: Decrypt, q: seq<Sent>, r: Codec.CloseResult, reserve: U256)
    returns (first: Sent)
    requires exists s :: s in q && Fits(decrypt, s, r, reserve)
    ensures first in q && Fits(decrypt, first, r, reserve)
    ensures forall s :: s in q && Fits(decrypt, s, r, reserve) ==> first.timestamp <= s.timestamp
  {
    var n := |q| - 1;
    assert q == q[..n] + [q[n]];
    if exists s :: s in q[..n] && Fits(decrypt, s, r, reserve) {
      first := EarliestFit(decrypt, q[..n], r, reserve);
      if Fits(decrypt, q[n], r, reserve) && q[n].timestamp < first.timestamp {
        first := q[n];
      }
    } else {
      first := q[n];
    }
  }

  lemma RightMeansNothingBetter(decrypt: Decrypt, q: seq<Sent>, r: Codec.CloseResult, reserve: U256, sent: Sent)
    requires RightAbout(decrypt, q, r, reserve) && sent in q
    ensures !Displaces(decrypt, q, sent, r, reserve)
  {
    if r.winner != ZERO_ADDRESS {
      var s :| s in q && Fits(decrypt, s, r, reserve) && NoneBetter(decrypt, q, r, reserve, s.timestamp);
    }
  }

  /** The selected bid has an instruction in the queue that fits the answer. */
  lemma SelectedFits(s: Site, decrypt: Decrypt, id: U256) returns (sent: Sent)
    requires Reached(s, decrypt) && id < |s.world.auctions|
    requires Best(BidsOf(s.node.memory, id), s.world.self, s.world.auctions[id].reservePrice).Some?
    ensures var best := Best(BidsOf(s.node.memory, id), s.world.self, s.world.auctions[id].reservePrice).value;
            && AnswerFor(s, id).winner != ZERO_ADDRESS
            && sent in s.world.outbox && Fits(decrypt, sent, AnswerFor(s, id), s.world.auctions[id].reservePrice)
            && sent.timestamp == best.timestamp
  {
    var q, reserve := s.world.outbox, s.world.auctions[id].reservePrice;
    BestIsUnbeaten(BidsOf(s.node.memory, id), s.world.self, reserve);
    var best := Best(BidsOf(s.node.memory, id), s.world.self, reserve).value;
    StoredBidderIsReal(s, decrypt, id, best);
    assert WasSent(decrypt, q, id, best);
    var k :| 0 <= k < |q| && Acceptable(decrypt, q[k], id) && StemsFrom(decrypt, q[k], best);
    sent := q[k];
  }

  lemma NothingBetterMeansRight(s: Site, decrypt: Decrypt, id: U256)
    requires Reached(s, decrypt) && id < |s.world.auctions|
    requires NothingBetterIsMissing(decrypt, s.world.outbox, BidsOf(s.node.memory, id), AnswerFor(s, id),
                                    s.world.auctions[id].reservePrice)
    ensures RightAbout(decrypt, s.world.outbox, AnswerFor(s, id), s.world.auctions[id].reservePrice)
  {
    var q, r, reserve, bids := s.world.outbox, AnswerFor(s, id), s.world.auctions[id].reservePrice,
        BidsOf(s.node.memory, id);
    var best := Best(bids, s.world.self, reserve);
    if best.None? {
      forall x | x in q ensures !Contends(decrypt, x, id, s.world.self, reserve) {
        if Contends(decrypt, x, id, s.world.self, reserve) && Has(decrypt, x, bids) {
          HeldIsNotBetter(decrypt, x, bids, id, s.world.self, reserve);
        }
      }
    } else {
      var selected := SelectedFits(s, decrypt, id);
      var first := EarliestFit(decrypt, q, r, reserve);
      forall x | x in q && Contends(decrypt, x, id, s.world.self, reserve)
        ensures AmountOf(decrypt, x) < r.clearingPrice
                || (AmountOf(decrypt, x) == r.clearingPrice && first.timestamp <= x.timestamp)
      {
        if Has(decrypt, x, bids) {
          HeldIsNotBetter(decrypt, x, bids, id, s.world.self, reserve);
        } else {
          assert !Displaces(decrypt, q, x, r, reserve);
        }
      }
      assert NoneBetter(decrypt, q, r, reserve, first.timestamp);
    }
  }

  /** Main result. In every allowed run, whatever was lost, repeated, reordered, interleaved or wiped
      by a restart: the answer to the contract's close is right about the queue if and only if no
      contender the TEE does not hold outbids it, or ties it earlier than all its winner's bids at
      that price. */
  lemma {:induction false} AnswerIsRightExactlyIfNothingBetterIsMissing(
    start: Site, decrypt: Decrypt, turns: seq<Turn>, id: U256)
    requires AtRest(start) && AllAllowed(start, decrypt, turns) && id < |Play(start, decrypt, turns).world.auctions|
    ensures var s := Play(start, decrypt, turns);
            var reserve := s.world.auctions[id].reservePrice;
            RightAbout(decrypt, s.world.outbox, AnswerFor(s, id), reserve)
            <==> NothingBetterIsMissing(decrypt, s.world.outbox, BidsOf(s.node.memory, id), AnswerFor(s, id), reserve)
  {
    var s := Play(start, decrypt, turns);
    ReachedInEveryRun(start, decrypt, turns);
    var q, reserve := s.world.outbox, s.world.auctions[id].reservePrice;
    if RightAbout(decrypt, q, AnswerFor(s, id), reserve) {
      forall x | x in q && !Has(decrypt, x, BidsOf(s.node.memory, id))
        ensures !Displaces(decrypt, q, x, AnswerFor(s, id), reserve)
      {
        RightMeansNothingBetter(decrypt, q, AnswerFor(s, id), reserve, x);
      }
    } else if NothingBetterIsMissing(decrypt, q, BidsOf(s.node.memory, id), AnswerFor(s, id), reserve) {
      NothingBetterMeansRight(s, decrypt, id);
    }
  }
}

/** What an auction goes through over a whole run: its terms are fixed at creation, its end is
    final, and the log shows exactly one release per finished auction and one sale per settled one. */
module Lifecycle {
  import opened Types
  import opened Auction
  import opened Frames
  import opened Escrow
  import Codec

  predicate SameTerms(a: Auction, b: Auction) {
    SameLot(a, b) && a.seller == b.seller && a.lot == b.lot && a.payToken == b.payToken
    && a.deadline == b.deadline && a.reservePrice == b.reservePrice
  }

  /** Open, then Closing, then one of the two ends, which absorb. */
  predicate Advances(a: Auction, b: Auction) {
    && SameTerms(a, b)
    && (!Live(a) ==> b == a)
    && (a.phase == Closing ==> b.phase != Open)
    && a.bidCount <= b.bidCount
    && (a.phase != Open ==> b.bidCount == a.bidCount)
  }

  lemma ResultAdvances(w: World, result: Codec.CloseResult, w1: World, i: nat)
    requires i < |w.auctions| && ResultShape(w, result, w1)
    ensures |w.auctions| <= |w1.auctions| && Advances(w.auctions[i], w1.auctions[i])
  {
  }

  lemma ShapeAdvances(w: World, tx: Tx, w1: World, i: nat)
    requires i < |w.auctions| && Shape(w, tx, w1)
    ensures |w.auctions| <= |w1.auctions| && Advances(w.auctions[i], w1.auctions[i])
  {
    match tx.call {
      case Create(_, _, _, _, _, _, _, _) =>
      case Bid(_, _) =>
      case Close(_) =>
      case Cancel(_) =>
      case SettleWith(_, _) =>
        var result :| ResultShape(w, result, w1);
        ResultAdvances(w, result, w1, i);
      case SetTee(_) =>
      case _ =>
    }
  }

  lemma StepAdvances(w: World, tx: Tx, i: nat)
    requires i < |w.auctions|
    ensures |w.auctions| <= |Step(w, tx).auctions| && Advances(w.auctions[i], Step(w, tx).auctions[i])
  {
    ApplyHasShape(w, tx);
    if Apply(w, tx).Ok? {
      ShapeAdvances(w, tx, Apply(w, tx).value, i);
    }
  }

  /** Terms never change and ends are final, from any state through any run. */
  lemma {:induction false} RunAdvances(w: World, txs: seq<Tx>, i: nat)
    requires i < |w.auctions|
    ensures |w.auctions| <= |Run(w, txs).auctions| && Advances(w.auctions[i], Run(w, txs).auctions[i])
  {
    if txs == [] {
    } else {
      var n := |txs| - 1;
      RunAdvances(w, txs[..n], i);
      StepAdvances(Run(w, txs[..n]), txs[n], i);
    }
  }

  // ---------------------------------------------------------------- the log

  /** Recipients of auction `i`'s lot, in order. */
  function Releases(events: seq<Event>, i: nat): seq<Address> {
    if events == [] then []
    else
      var e := events[|events| - 1];
      Releases(events[..|events| - 1], i) + (if e.LotReleased? && e.auctionId == i then [e.to] else [])
  }

  /** Payments for auction `i`: who paid and how much. */
  function Sales(events: seq<Event>, i: nat): seq<(Address, U256)> {
    if events == [] then []
    else
      var e := events[|events| - 1];
      Sales(events[..|events| - 1], i)
      + (if e.AuctionSettled? && e.auctionId == i then [(e.winner, e.clearingPrice)] else [])
  }

  function BidsPlaced(events: seq<Event>, i: nat): nat {
    if events == [] then 0
    else
      var e := events[|events| - 1];
      BidsPlaced(events[..|events| - 1], i) + (if e.BidPlaced? && e.auctionId == i then 1 else 0)
  }

  function Closings(events: seq<Event>, i: nat): nat {
    if events == [] then 0
    else
      var e := events[|events| - 1];
      Closings(events[..|events| - 1], i) + (if e.AuctionClosing? && e.auctionId == i then 1 else 0)
  }

  /** The log agrees with the record: the lot left at most once, exactly when the auction ended, to
      the seller or to the winner; exactly the settled auctions were paid for, once, by the winner;
      and an auction that ended without ever closing had no bids. */
  ghost predicate Journaled(a: Auction, events: seq<Event>, i: nat) {
    && Releases(events, i) == (if a.phase == Settled then [a.winner]
                                else if a.phase == Cancelled then [a.seller] else [])
    && Sales(events, i) == (if a.phase == Settled then [(a.winner, a.clearingPrice)] else [])
    && BidsPlaced(events, i) == a.bidCount
    && (a.winner != ZERO_ADDRESS <==> a.phase == Settled)
    && (a.phase == Settled ==> a.clearingPrice >= a.reservePrice)
    && (a.phase == Open ==> Closings(events, i) == 0)
    && ((a.phase == Closing || a.phase == Settled) ==> Closings(events, i) > 0)
    && (a.phase == Cancelled && Closings(events, i) == 0 ==> a.bidCount == 0)
  }

  predicate Unmentioned(events: seq<Event>, i: nat) {
    Releases(events, i) == [] && Sales(events, i) == [] && BidsPlaced(events, i) == 0 && Closings(events, i) == 0
  }

  lemma LogOneMore(events: seq<Event>, e: Event, i: nat)
    ensures var all := events + [e];
            && Releases(all, i) == (if e.LotReleased? && e.auctionId == i then Releases(events, i) + [e.to]
                                    else Releases(events, i))
            && Sales(all, i) == (if e.AuctionSettled? && e.auctionId == i
                                 then Sales(events, i) + [(e.winner, e.clearingPrice)]
                                 else Sales(events, i))
            && BidsPlaced(all, i) == BidsPlaced(events, i) + (if e.BidPlaced? && e.auctionId == i then 1 else 0)
            && Closings(all, i) == Closings(events, i) + (if e.AuctionClosing? && e.auctionId == i then 1 else 0)
  {
    assert (events + [e])[..|events|] == events;
  }

  lemma LogTwoMore(events: seq<Event>, e: Event, f: Event, i: nat)
    requires !e.BidPlaced? && !e.AuctionClosing? && !e.AuctionSettled?
    requires !f.BidPlaced? && !f.AuctionClosing? && !f.LotReleased?
    ensures var all := events + [e, f];
            && Releases(all, i) == (if e.LotReleased? && e.auctionId == i then Releases(events, i) + [e.to]
                                    else Releases(events, i))
            && Sales(all, i) == (if f.AuctionSettled? && f.auctionId == i
                                 then Sales(events, i) + [(f.winner, f.clearingPrice)]
                                 else Sales(events, i))
            && BidsPlaced(all, i) == BidsPlaced(events, i) && Closings(all, i) == Closings(events, i)
  {
    assert events + [e, f] == (events + [e]) + [f];
    LogOneMore(events, e, i);
    LogOneMore(events + [e], f, i);
  }

  ghost predicate JournaledAt(w: World, i: nat) {
    if i < |w.auctions| then Journaled(w.auctions[i], w.events, i) else Unmentioned(w.events, i)
  }

  lemma SaleKeepsJournal(w: World, id: nat, winner: Address, price: U256, w1: World, i: nat)
    requires JournaledAt(w, i) && id < |w.auctions| && w.auctions[id].phase == Closing && winner != ZERO_ADDRESS
    requires price >= w.auctions[id].reservePrice && OnlyTokens(Selling(w, id, winner, price), w1)
    ensures JournaledAt(w1, i)
  {
    LogTwoMore(w.events, LotReleased(id, winner), AuctionSettled(id, winner, price), i);
  }

  lemma ReturnKeepsJournal(w: World, id: nat, w1: World, i: nat)
    requires JournaledAt(w, i) && id < |w.auctions| && OnlyTokens(Cancelling(w, id), w1)
    requires w.auctions[id].phase == Closing || (w.auctions[id].phase == Open && w.auctions[id].bidCount == 0)
    ensures JournaledAt(w1, i)
  {
    LogTwoMore(w.events, LotReleased(id, w.auctions[id].seller), AuctionCancelled(id), i);
  }

  lemma ResultKeepsJournal(w: World, result: Codec.CloseResult, w1: World, i: nat)
    requires JournaledAt(w, i) && ResultShape(w, result, w1)
    ensures JournaledAt(w1, i)
  {
    if result.winner == ZERO_ADDRESS {
      ReturnKeepsJournal(w, result.auctionId, w1, i);
    } else {
      SaleKeepsJournal(w, result.auctionId, result.winner, result.clearingPrice, w1, i);
    }
  }

  lemma BidKeepsJournal(w: World, caller: Address, now: U64, id: U256, ciphertext: Bytes, w1: World, i: nat)
    requires JournaledAt(w, i) && BidEffect(w, caller, now, id, ciphertext, w1)
    ensures JournaledAt(w1, i)
  {
    LogOneMore(w.events, BidPlaced(id, caller, Commitment(id, caller, ciphertext)), i);
  }

  lemma CloseKeepsJournal(w: World, now: U64, id: U256, w1: World, i: nat)
    requires JournaledAt(w, i) && CloseEffect(w, now, id, w1)
    ensures JournaledAt(w1, i)
  {
    LogOneMore(w.events, AuctionClosing(id), i);
  }

  lemma CreateKeepsJournal(w: World, caller: Address, now: U64, c: Call, w1: World, i: nat)
    requires c.Create? && JournaledAt(w, i) && CreateEffect(w, caller, now, c, w1)
    ensures JournaledAt(w1, i)
  {
    var id := |w.auctions|;
    LogTwoMore(w.events, AuctionCreated(id, caller),
        LotEscrowed(id, c.lotToken, c.lotTokenId, w1.auctions[id].lotAmount), i);
  }

  lemma RegistrationKeepsJournal(w: World, tee: Address, w1: World, i: nat)
    requires JournaledAt(w, i) && w1 == Emit(w.(teeAddress := tee), TeeAddressSet(tee))
    ensures JournaledAt(w1, i)
  {
    LogOneMore(w.events, TeeAddressSet(tee), i);
  }

  lemma ShapeKeepsJournal(w: World, tx: Tx, w1: World, i: nat)
    requires JournaledAt(w, i) && Shape(w, tx, w1)
    ensures JournaledAt(w1, i)
  {
    match tx.call {
      case Create(_, _, _, _, _, _, _, _) => CreateKeepsJournal(w, tx.caller, tx.now, tx.call, w1, i);
      case Cancel(id) => ReturnKeepsJournal(w, id, w1, i);
      case Bid(id, ciphertext) => BidKeepsJournal(w, tx.caller, tx.now, id, ciphertext, w1, i);
      case Close(id) => CloseKeepsJournal(w, tx.now, id, w1, i);
      case SettleWith(_, _) =>
        var result :| ResultShape(w, result, w1);
        ResultKeepsJournal(w, result, w1, i);
      case SetTee(tee) => RegistrationKeepsJournal(w, tee, w1, i);
      case _ =>
    }
  }

  /** Main result: over every run from deployment the log and the records agree. */
  lemma {:induction false} JournalHoldsInEveryRun(w: World, txs: seq<Tx>, i: nat)
    requires Fresh(w)
    ensures JournaledAt(Run(w, txs), i)
  {
    if txs == [] {
    } else {
      var n := |txs| - 1;
      var mid := Run(w, txs[..n]);
      JournalHoldsInEveryRun(w, txs[..n], i);
      ApplyHasShape(mid, txs[n]);
      if Apply(mid, txs[n]).Ok? {
        ShapeKeepsJournal(mid, txs[n], Apply(mid, txs[n]).value, i);
      }
    }
  }
}

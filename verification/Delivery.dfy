/** How the order and the repetition of PLACE_BID deliveries before a close affect its result. */
module Delivery {
  import opened Types
  import opened Auction
  import opened Winner
  import opened Tee
  import Codec

  /** A bid without its arrival number: what its instruction determines. */
  datatype Offer = Offer(bidder: Address, contractAddr: Address, amount: U256, timestamp: U64)

  function OfferOf(b: Bid): Offer { Offer(b.bidder, b.contractAddr, b.amount, b.timestamp) }

  /** Anything may be delivered before the close of auction `key`, closes of other auctions included. */
  predicate BeforeClose(sents: seq<Sent>, key: U256) {
    forall s :: s in sents ==> s.message.PlaceBidMessage? || s.message.auctionId != key
  }

  /** The offer an instruction adds to auction `key` while that is open, if it is accepted. */
  function OfferIn(decrypt: Decrypt, sent: Sent, key: U256): Option<Offer> {
    if !sent.message.PlaceBidMessage? || |sent.message.ciphertext| == 0 || sent.message.auctionId != key
       || !Matches(decrypt, sent.message) then None
    else
      var p := Plain(decrypt, sent.message);
      Some(Offer(p.bidder, p.contractAddr, p.amountWei, sent.timestamp))
  }

  function Offers(decrypt: Decrypt, sents: seq<Sent>, key: U256): seq<Offer> {
    if sents == [] then []
    else
      var rest := Offers(decrypt, sents[..|sents| - 1], key);
      var o := OfferIn(decrypt, sents[|sents| - 1], key);
      if o.Some? then rest + [o.value] else rest
  }

  /** What CLOSE_AUCTION answers after these deliveries to a fresh TEE. */
  function Outcome(decrypt: Decrypt, sents: seq<Sent>, m: Message): Codec.CloseResult
    requires m.CloseMessage?
  {
    ResultOf(BidsOf(DeliverAll(EMPTY, decrypt, sents), m.auctionId), m)
  }

  // ---------------------------------------------------------------- selection without arrival numbers

  predicate Beats(a: Offer, b: Offer) {
    a.amount > b.amount || (a.amount == b.amount && a.timestamp < b.timestamp)
  }

  predicate Counts(o: Offer, m: Message)
    requires m.CloseMessage?
  {
    o.contractAddr == m.contractAddr && o.amount > 0 && o.amount >= m.reservePrice
  }

  function BestOffer(offers: seq<Offer>, m: Message): Option<Offer>
    requires m.CloseMessage?
  {
    if offers == [] then None
    else
      var last := offers[|offers| - 1];
      var rest := BestOffer(offers[..|offers| - 1], m);
      if Counts(last, m) && (rest.None? || Beats(last, rest.value)) then Some(last) else rest
  }

  lemma {:induction false} BestOfferIsUnbeaten(offers: seq<Offer>, m: Message)
    requires m.CloseMessage?
    ensures match BestOffer(offers, m)
            case None => forall o :: o in offers ==> !Counts(o, m)
            case Some(b) => b in offers && Counts(b, m) && forall o :: o in offers && Counts(o, m) ==> !Beats(o, b)
  {
    if offers == [] {
    } else {
      var k := |offers| - 1;
      BestOfferIsUnbeaten(offers[..k], m);
      assert offers == offers[..k] + [offers[k]];
    }
  }

  predicate Rising(bids: seq<Bid>) {
    forall i, j :: 0 <= i < j < |bids| ==> bids[i].arrival < bids[j].arrival
  }

  function Stripped(bids: seq<Bid>): seq<Offer> {
    if bids == [] then [] else Stripped(bids[..|bids| - 1]) + [OfferOf(bids[|bids| - 1])]
  }

  lemma StrippedOneMore(bids: seq<Bid>, b: Bid)
    ensures Stripped(bids + [b]) == Stripped(bids) + [OfferOf(b)]
  {
    assert (bids + [b])[..|bids|] == bids;
  }

  lemma LaterBidBeatsAsOffer(a: Bid, b: Bid)
    requires b.arrival < a.arrival
    ensures Better(a, b) <==> Beats(OfferOf(a), OfferOf(b))
  {
  }

  /** On a list in arrival order the arrival numbers never decide: the selection is the first of the
      offers with the best amount and timestamp. */
  lemma {:induction false} SelectionIgnoresArrivalNumbers(bids: seq<Bid>, m: Message)
    requires m.CloseMessage? && Rising(bids)
    ensures var best := Best(bids, m.contractAddr, m.reservePrice);
            var offer := BestOffer(Stripped(bids), m);
            best.Some? == offer.Some? && (best.Some? ==> best.value in bids && OfferOf(best.value) == offer.value)
  {
    if bids == [] {
    } else {
      var k := |bids| - 1;
      SelectionIgnoresArrivalNumbers(bids[..k], m);
      var rest := Best(bids[..k], m.contractAddr, m.reservePrice);
      if rest.Some? {
        LaterBidBeatsAsOffer(bids[k], rest.value);
      }
      var offers := Stripped(bids[..k]);
      assert Stripped(bids) == offers + [OfferOf(bids[k])];
      assert (offers + [OfferOf(bids[k])])[..|offers|] == offers;
    }
  }

  // ---------------------------------------------------------------- what deliveries store

  lemma DeliveryStoresOffer(s: Memory, decrypt: Decrypt, sent: Sent, key: U256)
    requires sent.message.PlaceBidMessage? || sent.message.auctionId != key
    requires key !in s.closed && s.counter < TWO_64 - 1
    ensures var t := Deliver(s, decrypt, sent);
            var o := OfferIn(decrypt, sent, key);
            && key !in t.closed && s.counter <= t.counter <= s.counter + 1
            && (o.None? ==> BidsOf(t, key) == BidsOf(s, key))
            && (o.Some? ==> t.counter == s.counter + 1
                            && BidsOf(t, key) == BidsOf(s, key)
                               + [Winner.Bid(o.value.bidder, o.value.contractAddr, o.value.amount,
                                             o.value.timestamp, t.counter)])
  {
  }

  ghost predicate Stored(s: Memory, key: U256, offers: seq<Offer>, deliveries: nat) {
    && key !in s.closed && s.counter <= deliveries && Rising(BidsOf(s, key))
    && (forall b :: b in BidsOf(s, key) ==> b.arrival <= s.counter)
    && Stripped(BidsOf(s, key)) == offers
  }

  lemma StoredOneMore(s: Memory, decrypt: Decrypt, sent: Sent, key: U256, offers: seq<Offer>, deliveries: nat)
    requires Stored(s, key, offers, deliveries) && deliveries < TWO_64 - 1
    requires sent.message.PlaceBidMessage? || sent.message.auctionId != key
    ensures var o := OfferIn(decrypt, sent, key);
            Stored(Deliver(s, decrypt, sent), key, if o.Some? then offers + [o.value] else offers, deliveries + 1)
  {
    DeliveryStoresOffer(s, decrypt, sent, key);
    var o := OfferIn(decrypt, sent, key);
    if o.Some? {
      StrippedOneMore(BidsOf(s, key), Winner.Bid(o.value.bidder, o.value.contractAddr, o.value.amount,
                                                 o.value.timestamp, s.counter + 1));
    }
  }

  lemma {:induction false} DeliveriesStoreOffers(decrypt: Decrypt, sents: seq<Sent>, key: U256)
    requires BeforeClose(sents, key) && |sents| < TWO_64
    ensures Stored(DeliverAll(EMPTY, decrypt, sents), key, Offers(decrypt, sents, key), |sents|)
  {
    if sents == [] {
    } else {
      var k := |sents| - 1;
      DeliveriesStoreOffers(decrypt, sents[..k], key);
      var before := DeliverAll(EMPTY, decrypt, sents[..k]);
      StoredOneMore(before, decrypt, sents[k], key, Offers(decrypt, sents[..k], key), k);
    }
  }

  lemma {:induction false} OutcomeOfOffers(decrypt: Decrypt, sents: seq<Sent>, m: Message)
    requires m.CloseMessage? && BeforeClose(sents, m.auctionId) && |sents| < TWO_64
    ensures var best := BestOffer(Offers(decrypt, sents, m.auctionId), m);
            var out := Outcome(decrypt, sents, m);
            && out.winner == (if best.Some? then best.value.bidder else ZERO_ADDRESS)
            && out.clearingPrice == (if best.Some? then best.value.amount else 0)
            && out.contractAddr == m.contractAddr && out.auctionId == m.auctionId
  {
    DeliveriesStoreOffers(decrypt, sents, m.auctionId);
    SelectionIgnoresArrivalNumbers(BidsOf(DeliverAll(EMPTY, decrypt, sents), m.auctionId), m);
  }

  lemma {:induction false} OfferComesFromDelivery(decrypt: Decrypt, sents: seq<Sent>, key: U256, o: Offer)
    ensures o in Offers(decrypt, sents, key) <==> exists s :: s in sents && OfferIn(decrypt, s, key) == Some(o)
  {
    if sents == [] {
    } else {
      var k := |sents| - 1;
      OfferComesFromDelivery(decrypt, sents[..k], key, o);
      assert sents == sents[..k] + [sents[k]];
    }
  }

  // ---------------------------------------------------------------- order

  /** Two accepted offers of different bidders, tied for the best amount and timestamp. */
  ghost predicate TiedAtTheTop(a: Offer, b: Offer, offers: seq<Offer>, m: Message)
    requires m.CloseMessage?
  {
    && a in offers && b in offers && Counts(a, m) && Counts(b, m) && a.bidder != b.bidder
    && a.amount == b.amount && a.timestamp == b.timestamp
    && forall o :: o in offers && Counts(o, m) ==> !Beats(o, a)
  }

  /** Delivering the same instructions in another order, which renumbers every bid, never changes the
      price, and changes the winner only on an exact tie between different bidders. */
  lemma {:induction false} OrderOfDeliveryHardlyMatters(decrypt: Decrypt, xs: seq<Sent>, ys: seq<Sent>, m: Message)
    requires m.CloseMessage? && BeforeClose(xs, m.auctionId) && |xs| < TWO_64
    requires multiset(xs) == multiset(ys)
    ensures Outcome(decrypt, xs, m).clearingPrice == Outcome(decrypt, ys, m).clearingPrice
    ensures Outcome(decrypt, xs, m).winner != Outcome(decrypt, ys, m).winner ==>
              exists a, b :: TiedAtTheTop(a, b, Offers(decrypt, xs, m.auctionId), m)
  {
    assert |xs| == |multiset(xs)| && |ys| == |multiset(ys)|;
    forall s ensures s in xs <==> s in ys {
      assert s in xs <==> s in multiset(xs);
      assert s in ys <==> s in multiset(ys);
    }
    var us, vs := Offers(decrypt, xs, m.auctionId), Offers(decrypt, ys, m.auctionId);
    forall o ensures o in us <==> o in vs {
      OfferComesFromDelivery(decrypt, xs, m.auctionId, o);
      OfferComesFromDelivery(decrypt, ys, m.auctionId, o);
    }
    OutcomeOfOffers(decrypt, xs, m);
    OutcomeOfOffers(decrypt, ys, m);
    BestOfferIsUnbeaten(us, m);
    BestOfferIsUnbeaten(vs, m);
    var u, v := BestOffer(us, m), BestOffer(vs, m);
    if u.Some? {
      assert v.Some? && !Beats(u.value, v.value) && !Beats(v.value, u.value);
      if u.value.bidder != v.value.bidder {
        assert TiedAtTheTop(u.value, v.value, us, m);
      }
    }
  }

  lemma {:induction false} OffersOfHead(decrypt: Decrypt, s: Sent, rest: seq<Sent>, key: U256)
    requires OfferIn(decrypt, s, key).Some?
    ensures Offers(decrypt, [s] + rest, key) == [OfferIn(decrypt, s, key).value] + Offers(decrypt, rest, key)
  {
    if rest == [] {
      assert [s] + rest == [s] && [s][..0] == [];
      assert Offers(decrypt, [s][..0], key) == [];
    } else {
      var k := |rest| - 1;
      assert ([s] + rest)[..|[s] + rest| - 1] == [s] + rest[..k];
      OffersOfHead(decrypt, s, rest[..k], key);
    }
  }

  /** Of equally good offers the first delivered is selected. */
  lemma {:induction false} UnbeatenHeadIsSelected(o: Offer, rest: seq<Offer>, m: Message)
    requires m.CloseMessage? && Counts(o, m) && forall x :: x in rest && Counts(x, m) ==> !Beats(x, o)
    ensures BestOffer([o] + rest, m) == Some(o)
  {
    if rest == [] {
      assert [o] + rest == [o] && [o][..0] == [];
      assert BestOffer([o][..0], m) == None;
    } else {
      var k := |rest| - 1;
      assert ([o] + rest)[..|[o] + rest| - 1] == [o] + rest[..k];
      UnbeatenHeadIsSelected(o, rest[..k], m);
    }
  }

  /** Delivering one of the best offers first selects it. */
  lemma DeliveredFirstWins(decrypt: Decrypt, xs: seq<Sent>, m: Message, i: nat) returns (ys: seq<Sent>)
    requires m.CloseMessage? && BeforeClose(xs, m.auctionId) && |xs| < TWO_64 && i < |xs|
    requires OfferIn(decrypt, xs[i], m.auctionId).Some? && Counts(OfferIn(decrypt, xs[i], m.auctionId).value, m)
    requires forall o :: o in Offers(decrypt, xs, m.auctionId) && Counts(o, m) ==>
               !Beats(o, OfferIn(decrypt, xs[i], m.auctionId).value)
    ensures multiset(ys) == multiset(xs)
            && Outcome(decrypt, ys, m).winner == OfferIn(decrypt, xs[i], m.auctionId).value.bidder
  {
    var rest, first := xs[..i] + xs[i + 1..], OfferIn(decrypt, xs[i], m.auctionId).value;
    ys := [xs[i]] + rest;
    assert xs == xs[..i] + [xs[i]] + xs[i + 1..];
    OffersOfHead(decrypt, xs[i], rest, m.auctionId);
    forall o | o in Offers(decrypt, rest, m.auctionId) && Counts(o, m) ensures !Beats(o, first) {
      OfferComesFromDelivery(decrypt, rest, m.auctionId, o);
      OfferComesFromDelivery(decrypt, xs, m.auctionId, o);
    }
    UnbeatenHeadIsSelected(first, Offers(decrypt, rest, m.auctionId), m);
    OutcomeOfOffers(decrypt, ys, m);
  }

  /** Some order of the same deliveries gives another winner. */
  ghost predicate OrderDecides(decrypt: Decrypt, xs: seq<Sent>, m: Message)
    requires m.CloseMessage?
  {
    exists ys: seq<Sent> :: multiset(ys) == multiset(xs)
                            && Outcome(decrypt, ys, m).winner != Outcome(decrypt, xs, m).winner
  }

  /** Exactly: the order of delivery can decide who wins if and only if different bidders tie for the
      best amount and timestamp. */
  lemma {:induction false} OrderDecidesExactlyOnTies(decrypt: Decrypt, xs: seq<Sent>, m: Message)
    requires m.CloseMessage? && BeforeClose(xs, m.auctionId) && |xs| < TWO_64
    ensures OrderDecides(decrypt, xs, m) <==> exists a, b :: TiedAtTheTop(a, b, Offers(decrypt, xs, m.auctionId), m)
  {
    if OrderDecides(decrypt, xs, m) {
      var ys: seq<Sent> :| multiset(ys) == multiset(xs)
                           && Outcome(decrypt, ys, m).winner != Outcome(decrypt, xs, m).winner;
      OrderOfDeliveryHardlyMatters(decrypt, xs, ys, m);
    }
    if a, b :| TiedAtTheTop(a, b, Offers(decrypt, xs, m.auctionId), m) {
      var other := if a.bidder != Outcome(decrypt, xs, m).winner then a else b;
      OfferComesFromDelivery(decrypt, xs, m.auctionId, other);
      var s :| s in xs && OfferIn(decrypt, s, m.auctionId) == Some(other);
      var i :| 0 <= i < |xs| && xs[i] == s;
      var ys := DeliveredFirstWins(decrypt, xs, m, i);
    }
  }

  // ---------------------------------------------------------------- repetition

  /** The deliveries with every repeat of an earlier one dropped. */
  function FirstDeliveries(sents: seq<Sent>): seq<Sent> {
    if sents == [] then []
    else
      var rest := FirstDeliveries(sents[..|sents| - 1]);
      var last := sents[|sents| - 1];
      if last in sents[..|sents| - 1] then rest else rest + [last]
  }

  lemma {:induction false} FirstDeliveriesKeepMembers(sents: seq<Sent>)
    ensures forall s :: s in FirstDeliveries(sents) <==> s in sents
    ensures |FirstDeliveries(sents)| <= |sents|
  {
    if sents == [] {
    } else {
      FirstDeliveriesKeepMembers(sents[..|sents| - 1]);
      assert sents == sents[..|sents| - 1] + [sents[|sents| - 1]];
    }
  }

  lemma {:induction false} RepeatsChangeNoOffer(decrypt: Decrypt, sents: seq<Sent>, m: Message)
    requires m.CloseMessage?
    ensures BestOffer(Offers(decrypt, FirstDeliveries(sents), m.auctionId), m)
            == BestOffer(Offers(decrypt, sents, m.auctionId), m)
  {
    FirstDeliveriesKeepMembers(sents);
    if sents == [] {
    } else {
      var k := |sents| - 1;
      var key := m.auctionId;
      RepeatsChangeNoOffer(decrypt, sents[..k], m);
      var o := OfferIn(decrypt, sents[k], key);
      var before := Offers(decrypt, sents[..k], key);
      if o.Some? {
        assert Offers(decrypt, sents, key)[..|before|] == before;
        if sents[k] in sents[..k] {
          OfferComesFromDelivery(decrypt, sents[..k], key, o.value);
          BestOfferIsUnbeaten(before, m);
        } else {
          var kept := FirstDeliveries(sents[..k]);
          assert (kept + [sents[k]])[..|kept|] == kept;
          var offers := Offers(decrypt, kept, key);
          assert (offers + [o.value])[..|offers|] == offers;
        }
      } else if sents[k] !in sents[..k] {
        var kept := FirstDeliveries(sents[..k]);
        assert (kept + [sents[k]])[..|kept|] == kept;
      }
    }
  }

  /** Re-delivering instructions any number of times leaves winner and price unchanged: the result
      depends on the first delivery of each alone. */
  lemma {:induction false} OnlyFirstDeliveriesMatter(decrypt: Decrypt, sents: seq<Sent>, m: Message)
    requires m.CloseMessage? && BeforeClose(sents, m.auctionId) && |sents| < TWO_64
    ensures Outcome(decrypt, sents, m) == Outcome(decrypt, FirstDeliveries(sents), m)
  {
    RepeatsChangeNoOffer(decrypt, sents, m);
    FirstDeliveriesKeepMembers(sents);
    OutcomeOfOffers(decrypt, sents, m);
    OutcomeOfOffers(decrypt, FirstDeliveries(sents), m);
  }

  lemma {:induction false} RepeatIsDropped(before: seq<Sent>, s: Sent, after: seq<Sent>)
    requires s in before
    ensures FirstDeliveries(before + [s] + after) == FirstDeliveries(before + after)
  {
    if after == [] {
      assert before + [s] + after == before + [s];
      assert (before + [s])[..|before|] == before;
      assert before + after == before;
    } else {
      var k := |after| - 1;
      RepeatIsDropped(before, s, after[..k]);
      var long, short := before + [s] + after, before + after;
      assert long[..|long| - 1] == before + [s] + after[..k];
      assert short[..|short| - 1] == before + after[..k];
      assert after[k] in long[..|long| - 1] <==> after[k] in short[..|short| - 1];
    }
  }

  /** One more copy of an instruction already delivered, anywhere before the close, is harmless. */
  lemma DuplicateDeliveryIsHarmless(decrypt: Decrypt, before: seq<Sent>, s: Sent, after: seq<Sent>, m: Message)
    requires m.CloseMessage? && BeforeClose(before + after, m.auctionId)
    requires s in before && |before| + |after| + 1 < TWO_64
    ensures Outcome(decrypt, before + [s] + after, m) == Outcome(decrypt, before + after, m)
  {
    assert s in before + after;
    RepeatIsDropped(before, s, after);
    OnlyFirstDeliveriesMatter(decrypt, before + [s] + after, m);
    OnlyFirstDeliveriesMatter(decrypt, before + after, m);
  }
}

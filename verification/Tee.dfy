/** go/internal/extension: the bids a TEE holds, its two handlers as transitions on that memory, and
    the handler object itself. Each critical section is one atomic transition. */
module Tee {
  import opened Types
  import opened Auction
  import opened Winner
  import opened Sums
  import Codec

  /** BidPayload without its salt, which only makes equal bids encrypt differently. */
  datatype Payload = Payload(auctionId: U256, contractAddr: Address, bidder: Address, amountWei: U256) {
    function ToBid(timestamp: U64, arrival: U64): Bid {
      Winner.Bid(bidder, contractAddr, amountWei, timestamp, arrival)
    }
  }

  /** ECIES decryption by the node followed by ABI decoding of the plaintext; None where either fails. */
  type Decrypt = Bytes -> Option<Payload>

  datatype Refusal =
    | MessageEmpty | MessageUndecodable | CiphertextEmpty | AlreadyClosed
    | Undecodable | BidderMismatch | AuctionMismatch | AmountNotPositive

  /** An instruction's message as it reaches a handler, ABI-decoded for that handler. */
  datatype Original = Absent | Garbled | Decoded(message: Message)

  datatype Memory = Memory(bids: map<U256, seq<Bid>>, closed: set<U256>, counter: U64)

  const EMPTY: Memory := Memory(map[], {}, 0)

  function BidsOf(s: Memory, key: U256): seq<Bid> { if key in s.bids then s.bids[key] else [] }

  /** What PLACE_BID refuses before decrypting; the closed check is its read-locked section. */
  function CheckOpen(s: Memory, m: Message): Option<Refusal>
    requires m.PlaceBidMessage?
  {
    if |m.ciphertext| == 0 then Some(CiphertextEmpty)
    else if m.auctionId in s.closed then Some(AlreadyClosed)
    else None
  }

  datatype Vetted = Good(payload: Payload) | Bad(why: Refusal)

  /** What PLACE_BID does without a lock: decrypt, and hold the payload against the wrapper the chain
      built from `msg.sender`. */
  function Vet(decrypt: Decrypt, m: Message): Vetted
    requires m.PlaceBidMessage?
  {
    match decrypt(m.ciphertext)
    case None => Bad(Undecodable)
    case Some(p) =>
      if p.bidder != m.bidder then Bad(BidderMismatch)
      else if p.auctionId != m.auctionId then Bad(AuctionMismatch)
      else if p.amountWei == 0 then Bad(AmountNotPositive)
      else Good(p)
  }

  // ---------------------------------------------------------------- acceptance, from the plaintext alone

  /** The plaintext behind the ciphertext agrees with the wrapper and offers something. */
  predicate Matches(decrypt: Decrypt, m: Message) {
    && m.PlaceBidMessage? && decrypt(m.ciphertext).Some?
    && decrypt(m.ciphertext).value.bidder == m.bidder
    && decrypt(m.ciphertext).value.auctionId == m.auctionId
    && decrypt(m.ciphertext).value.amountWei > 0
  }

  /** What the bidder encrypted. */
  function Plain(decrypt: Decrypt, m: Message): Payload
    requires Matches(decrypt, m)
  {
    decrypt(m.ciphertext).value
  }

  /** The bid the plaintext describes, as it is to be stored. */
  function Encrypted(decrypt: Decrypt, sent: Sent, arrival: U64): Bid
    requires Matches(decrypt, sent.message)
  {
    var p := Plain(decrypt, sent.message);
    Winner.Bid(p.bidder, p.contractAddr, p.amountWei, sent.timestamp, arrival)
  }

  /** Vetting lets through exactly the plaintexts that match, unchanged, and otherwise says why not. */
  lemma VettingIsExact(decrypt: Decrypt, m: Message)
    requires m.PlaceBidMessage?
    ensures Vet(decrypt, m).Good? <==> Matches(decrypt, m)
    ensures Vet(decrypt, m).Good? ==> Vet(decrypt, m).payload == decrypt(m.ciphertext).value
    ensures Vet(decrypt, m).Bad? ==>
              match Vet(decrypt, m).why
              case Undecodable => decrypt(m.ciphertext).None?
              case BidderMismatch => decrypt(m.ciphertext).Some? && decrypt(m.ciphertext).value.bidder != m.bidder
              case AuctionMismatch => decrypt(m.ciphertext).Some?
                                      && decrypt(m.ciphertext).value.auctionId != m.auctionId
              case AmountNotPositive => decrypt(m.ciphertext).Some? && decrypt(m.ciphertext).value.amountWei == 0
              case _ => false
  {
  }

  function NextArrival(counter: U64): U64 { (counter + 1) % TWO_64 }

  /** The write-locked section of PLACE_BID: it does not look at `closed` again. */
  function Append(s: Memory, p: Payload, timestamp: U64): Memory {
    var arrival := NextArrival(s.counter);
    s.(counter := arrival,
       bids := s.bids[p.auctionId := BidsOf(s, p.auctionId) + [p.ToBid(timestamp, arrival)]])
  }

  /** The critical section of CLOSE_AUCTION: mark, then select over the snapshot. */
  function MarkClosed(s: Memory, key: U256): Memory { s.(closed := s.closed + {key}) }

  function ResultOf(bids: seq<Bid>, m: Message): Codec.CloseResult
    requires m.CloseMessage?
  {
    var best := Best(bids, m.contractAddr, m.reservePrice);
    Codec.CloseResult(m.contractAddr, m.auctionId, Bidder(best), Price(best))
  }

  /** One whole PLACE_BID handler with nothing running beside it. */
  function Place(s: Memory, decrypt: Decrypt, sent: Sent): (r: (Memory, Option<Refusal>))
    requires sent.message.PlaceBidMessage?
  {
    var refused := CheckOpen(s, sent.message);
    if refused.Some? then (s, refused)
    else
      match Vet(decrypt, sent.message)
      case Bad(why) => (s, Some(why))
      case Good(p) => (Append(s, p, sent.timestamp), None)
  }

  /** One instruction, handlers serialized. */
  function Deliver(s: Memory, decrypt: Decrypt, sent: Sent): Memory {
    if sent.message.PlaceBidMessage? then Place(s, decrypt, sent).0 else MarkClosed(s, sent.message.auctionId)
  }

  function DeliverAll(s: Memory, decrypt: Decrypt, sents: seq<Sent>): Memory {
    if sents == [] then s else Deliver(DeliverAll(s, decrypt, sents[..|sents| - 1]), decrypt, sents[|sents| - 1])
  }

  /** A bid handler accepts exactly a nonempty ciphertext for an auction not closed whose plaintext matches;
      it then stores one bid, with the encrypted bidder, contract and amount and the instruction's time,
      at the end of that auction's list, and changes nothing else. A refusal changes nothing and gives a
      reason that holds. */
  lemma PlacingIsExact(s: Memory, decrypt: Decrypt, sent: Sent)
    requires sent.message.PlaceBidMessage?
    ensures var m := sent.message;
            var (t, refused) := Place(s, decrypt, sent);
            && (refused.None? <==> |m.ciphertext| > 0 && m.auctionId !in s.closed && Matches(decrypt, m))
            && (refused.None? ==>
                  && BidsOf(t, m.auctionId) == BidsOf(s, m.auctionId) + [Encrypted(decrypt, sent, t.counter)]
                  && (forall key: U256 :: key != m.auctionId ==> BidsOf(t, key) == BidsOf(s, key))
                  && t.closed == s.closed && t.counter == if s.counter == TWO_64 - 1 then 0 else s.counter + 1)
            && (refused.Some? ==> t == s)
            && (refused == Some(CiphertextEmpty) <==> |m.ciphertext| == 0)
            && (refused == Some(AlreadyClosed) <==> |m.ciphertext| > 0 && m.auctionId in s.closed)
  {
    VettingIsExact(decrypt, sent.message);
  }

  // ---------------------------------------------------------------- the counters

  ghost function Sizes(bids: map<U256, seq<Bid>>): map<U256, nat> { map k | k in bids :: |bids[k]| }

  ghost function Total(s: Memory): nat { Sum(Sizes(s.bids)) }

  ghost predicate ListNumbered(bids: seq<Bid>, counter: nat) {
    && (forall i :: 0 <= i < |bids| ==> 1 <= bids[i].arrival <= counter)
    && (forall i, j :: 0 <= i < j < |bids| ==> bids[i].arrival < bids[j].arrival)
  }

  ghost predicate Apart(xs: seq<Bid>, ys: seq<Bid>) {
    forall i, j :: 0 <= i < |xs| && 0 <= j < |ys| ==> xs[i].arrival != ys[j].arrival
  }

  /** Arrival numbers run from 1 to the counter, increase along each list, and never repeat. */
  ghost predicate Numbered(s: Memory) {
    && (forall k :: k in s.bids ==> ListNumbered(s.bids[k], s.counter))
    && (forall k, l :: k in s.bids && l in s.bids && k != l ==> Apart(s.bids[k], s.bids[l]))
  }

  /** The counter is the number of stored bids, in the width of a uint64; until it wraps the stored
      arrival numbers order all bids. */
  ghost predicate Counted(s: Memory) {
    s.counter == Total(s) % TWO_64 && (Total(s) < TWO_64 ==> Numbered(s))
  }

  lemma EmptyIsCounted()
    ensures Counted(EMPTY) && Total(EMPTY) == 0
  {
    assert Sizes(EMPTY.bids) == map[];
  }

  lemma AppendGrowsTotal(s: Memory, p: Payload, timestamp: U64)
    ensures Total(Append(s, p, timestamp)) == Total(s) + 1
  {
    var k := p.auctionId;
    var sizes := Sizes(s.bids);
    assert Sizes(Append(s, p, timestamp).bids) == sizes[k := |BidsOf(s, k)| + 1];
    SumUpdate(sizes, k, |BidsOf(s, k)| + 1);
    assert At(sizes, k) == |BidsOf(s, k)|;
  }

  lemma OneMoreNumbered(bids: seq<Bid>, b: Bid, counter: nat)
    requires ListNumbered(bids, counter)
    ensures ListNumbered(bids, counter + 1)
    ensures b.arrival == counter + 1 ==> ListNumbered(bids + [b], counter + 1)
  {
  }

  lemma OneMoreApart(xs: seq<Bid>, ys: seq<Bid>, b: Bid, counter: nat)
    requires Apart(xs, ys) && ListNumbered(ys, counter) && b.arrival == counter + 1
    ensures Apart(xs + [b], ys) && Apart(ys, xs + [b])
  {
  }

  lemma AppendKeepsNumbering(s: Memory, p: Payload, timestamp: U64)
    requires Numbered(s) && s.counter < TWO_64 - 1
    ensures Numbered(Append(s, p, timestamp))
  {
    var t := Append(s, p, timestamp);
    var key := p.auctionId;
    var b := p.ToBid(timestamp, s.counter + 1);
    assert t.bids == s.bids[key := BidsOf(s, key) + [b]] && t.counter == s.counter + 1;
    forall k | k in t.bids ensures ListNumbered(t.bids[k], t.counter) {
      OneMoreNumbered(BidsOf(s, k), b, s.counter);
    }
    forall k, l | k in t.bids && l in t.bids && k != l ensures Apart(t.bids[k], t.bids[l]) {
      if k == key {
        OneMoreApart(BidsOf(s, k), s.bids[l], b, s.counter);
      } else if l == key {
        OneMoreApart(BidsOf(s, l), s.bids[k], b, s.counter);
      }
    }
  }

  lemma NextArrivalCounts(total: nat)
    ensures NextArrival(total % TWO_64) == (total + 1) % TWO_64
  {
  }

  lemma AppendCounts(s: Memory, p: Payload, timestamp: U64)
    requires Counted(s)
    ensures Counted(Append(s, p, timestamp)) && Total(Append(s, p, timestamp)) == Total(s) + 1
  {
    AppendGrowsTotal(s, p, timestamp);
    NextArrivalCounts(Total(s));
    if Total(s) + 1 < TWO_64 {
      AppendKeepsNumbering(s, p, timestamp);
    }
  }

  lemma PlaceKeepsCount(s: Memory, decrypt: Decrypt, sent: Sent)
    requires Counted(s) && sent.message.PlaceBidMessage?
    ensures Counted(Place(s, decrypt, sent).0) && Total(Place(s, decrypt, sent).0) <= Total(s) + 1
  {
    var vetted := Vet(decrypt, sent.message);
    if CheckOpen(s, sent.message).None? && vetted.Good? {
      AppendCounts(s, vetted.payload, sent.timestamp);
    }
  }

  lemma NewestIsLast(s: Memory, key: U256)
    requires Counted(s) && Total(s) + 1 < TWO_64
    ensures forall b :: b in BidsOf(s, key) ==> b.arrival < NextArrival(s.counter)
  {
  }

  lemma {:induction false} DeliveriesCount(decrypt: Decrypt, sents: seq<Sent>)
    ensures Counted(DeliverAll(EMPTY, decrypt, sents)) && Total(DeliverAll(EMPTY, decrypt, sents)) <= |sents|
  {
    if sents == [] {
      EmptyIsCounted();
    } else {
      var n := |sents| - 1;
      DeliveriesCount(decrypt, sents[..n]);
      var s, sent := DeliverAll(EMPTY, decrypt, sents[..n]), sents[n];
      if sent.message.PlaceBidMessage? {
        PlaceKeepsCount(s, decrypt, sent);
      }
    }
  }

  // ---------------------------------------------------------------- the handler object

  class Extension {
    const decrypt: Decrypt
    var bids: map<U256, seq<Bid>>
    var closed: set<U256>
    var counter: U64

    ghost function Contents(): Memory
      reads this
    {
      Memory(bids, closed, counter)
    }

    /** The counter keeps up with what is stored. */
    ghost predicate Valid()
      reads this
    {
      Counted(Contents())
    }

    constructor (decrypt: Decrypt)
      ensures Valid() && Contents() == EMPTY && this.decrypt == decrypt
    {
      this.decrypt := decrypt;
      bids, closed, counter := map[], {}, 0;
      new;
      EmptyIsCounted();
    }

    method CheckAndStore(sent: Sent) returns (refused: Option<Refusal>)
      requires sent.message.PlaceBidMessage?
      modifies this`bids, this`counter
      ensures (Contents(), refused) == Place(old(Contents()), decrypt, sent)
    {
      var wrapper := sent.message;
      if |wrapper.ciphertext| == 0 {
        return Some(CiphertextEmpty);
      }
      var isClosed := wrapper.auctionId in closed;
      if isClosed {
        return Some(AlreadyClosed);
      }
      var plaintext := decrypt(wrapper.ciphertext);
      if plaintext.None? {
        return Some(Undecodable);
      }
      var payload := plaintext.value;
      if payload.bidder != wrapper.bidder {
        return Some(BidderMismatch);
      }
      if payload.auctionId != wrapper.auctionId {
        return Some(AuctionMismatch);
      }
      if payload.amountWei <= 0 {
        return Some(AmountNotPositive);
      }
      counter := if counter == TWO_64 - 1 then 0 else counter + 1;
      var stored := if wrapper.auctionId in bids then bids[wrapper.auctionId] else [];
      bids := bids[wrapper.auctionId := stored + [Winner.Bid(payload.bidder, payload.contractAddr, payload.amountWei,
                                                      sent.timestamp, counter)]];
      return None;
    }

    /** `processPlaceBid`, run to completion. */
    method ProcessPlaceBid(original: Original, timestamp: U64) returns (refused: Option<Refusal>)
      requires Valid() && (original.Decoded? ==> original.message.PlaceBidMessage?)
      modifies this`bids, this`counter
      ensures Valid()
      ensures match original
              case Absent => Contents() == old(Contents()) && refused == Some(MessageEmpty)
              case Garbled => Contents() == old(Contents()) && refused == Some(MessageUndecodable)
              case Decoded(m) => (Contents(), refused) == Place(old(Contents()), decrypt, Sent(timestamp, m))
    {
      if original.Absent? {
        return Some(MessageEmpty);
      }
      if original.Garbled? {
        return Some(MessageUndecodable);
      }
      PlaceKeepsCount(Contents(), decrypt, Sent(timestamp, original.message));
      refused := CheckAndStore(Sent(timestamp, original.message));
    }

    /** `processCloseAuction`: the bids are kept, so asking again selects over at least the same bids. */
    method ProcessCloseAuction(original: Original) returns (refused: Option<Refusal>, encoded: Bytes)
      requires Valid() && (original.Decoded? ==> original.message.CloseMessage?)
      modifies this`closed
      ensures Valid()
      ensures match original
              case Absent => Contents() == old(Contents()) && refused == Some(MessageEmpty) && encoded == []
              case Garbled => Contents() == old(Contents()) && refused == Some(MessageUndecodable) && encoded == []
              case Decoded(m) =>
                var result := ResultOf(BidsOf(old(Contents()), m.auctionId), m);
                && refused == None && Contents() == MarkClosed(old(Contents()), m.auctionId)
                && Codec.UnpackResult(encoded) == Ok(result) && encoded == Codec.PackResult(result)
    {
      if original.Absent? {
        return Some(MessageEmpty), [];
      }
      if original.Garbled? {
        return Some(MessageUndecodable), [];
      }
      var m := original.message;
      closed := closed + {m.auctionId};
      var snapshot := if m.auctionId in bids then bids[m.auctionId] else [];
      var winner, clearingPrice, _ := PickWinner(snapshot, m.contractAddr, Some(m.reservePrice));
      var result := Codec.CloseResult(m.contractAddr, m.auctionId, winner, clearingPrice);
      Codec.UnpackInvertsPack(result);
      return None, Codec.PackResult(result);
    }

    method CountStored() returns (bidsStored: nat)
      ensures bidsStored == Total(Contents())
    {
      bidsStored := 0;
      var left := bids.Keys;
      ghost var rest := Sizes(bids);
      while left != {}
        invariant left <= bids.Keys && rest.Keys == left
        invariant forall k :: k in left ==> rest[k] == |bids[k]|
        invariant bidsStored + Sum(rest) == Total(Contents())
      {
        var k :| k in left;
        SumRemove(rest, k);
        rest := rest - {k};
        bidsStored := bidsStored + |bids[k]|;
        left := left - {k};
      }
    }

    /** `stateHandler`: the map is walked in whatever order it yields its keys, and the count is
        still the number of stored bids, which the counter holds. */
    method StateHandler() returns (tracked: nat, marked: nat, bidsStored: nat)
      requires Valid()
      ensures tracked == |bids.Keys| && marked == |closed|
      ensures bidsStored == Total(Contents()) && bidsStored % TWO_64 == counter
    {
      bidsStored := CountStored();
      return |bids.Keys|, |closed|, bidsStored;
    }
  }
}

/** go/internal/extension/winner.go: first-price winner selection over the stored bids. */
module Winner {
  import opened Types

  datatype Bid = Bid(
    bidder: Address,
    contractAddr: Address,    // from the decrypted payload
    amount: U256,             // decoded from a uint256
    timestamp: U64,           // of the PLACE_BID instruction
    arrival: U64)             // `Seq`: arrival order in this process

  /** Amount descending, then timestamp ascending, then arrival ascending. */
  predicate Better(a: Bid, b: Bid) {
    if a.amount != b.amount then a.amount > b.amount
    else if a.timestamp != b.timestamp then a.timestamp < b.timestamp
    else a.arrival < b.arrival
  }

  predicate Eligible(b: Bid, contractAddr: Address, reserve: int) {
    b.contractAddr == contractAddr && b.amount > 0 && b.amount >= reserve
  }

  /** The selection: the last bid replaces the best so far only by beating it strictly. */
  function Best(bids: seq<Bid>, contractAddr: Address, reserve: int): Option<Bid> {
    if bids == [] then None
    else
      var last := bids[|bids| - 1];
      var rest := Best(bids[..|bids| - 1], contractAddr, reserve);
      if Eligible(last, contractAddr, reserve) && (rest.None? || Better(last, rest.value)) then Some(last) else rest
  }

  function Price(o: Option<Bid>): U256 { if o.Some? then o.value.amount else 0 }
  function Bidder(o: Option<Bid>): Address { if o.Some? then o.value.bidder else ZERO_ADDRESS }

  /** The loop of the extension. A missing reserve counts as zero. */
  method PickWinner(bids: seq<Bid>, contractAddr: Address, reserve: Option<U256>)
    returns (winner: Address, clearingPrice: U256, ok: bool)
    ensures var best := Best(bids, contractAddr, if reserve.Some? then reserve.value else 0);
            winner == Bidder(best) && clearingPrice == Price(best) && ok == best.Some?
  {
    var floor := if reserve.Some? then reserve.value else 0;
    var best: Option<Bid> := None;
    for i := 0 to |bids|
      invariant best == Best(bids[..i], contractAddr, floor)
    {
      var b := bids[i];
      assert bids[..i + 1][..i] == bids[..i];
      if b.contractAddr != contractAddr {
        continue;
      }
      if b.amount <= 0 || b.amount < floor {
        continue;
      }
      if best.None? || Better(b, best.value) {
        best := Some(b);
      }
    }
    assert bids[..|bids|] == bids;
    if best.None? {
      return ZERO_ADDRESS, 0, false;
    }
    return best.value.bidder, best.value.amount, true;
  }

  // ---------------------------------------------------------------- what the selection means

  lemma BestAfterOneMore(bids: seq<Bid>, b: Bid, contractAddr: Address, reserve: int)
    ensures var rest := Best(bids, contractAddr, reserve);
            Best(bids + [b], contractAddr, reserve)
            == if Eligible(b, contractAddr, reserve) && (rest.None? || Better(b, rest.value)) then Some(b) else rest
  {
    assert (bids + [b])[..|bids|] == bids;
  }

  predicate DistinctArrivals(bids: seq<Bid>) {
    forall i, j :: 0 <= i < j < |bids| ==> bids[i].arrival != bids[j].arrival
  }

  /** `b` is an eligible bid of the list that no eligible bid of the list beats. */
  ghost predicate IsUnbeaten(b: Bid, bids: seq<Bid>, contractAddr: Address, reserve: int) {
    && b in bids && Eligible(b, contractAddr, reserve)
    && forall x :: x in bids && Eligible(x, contractAddr, reserve) ==> !Better(x, b)
  }

  /** `Better` is a strict order, total on bids whose arrival numbers differ. */
  lemma BetterIsStrictTotalOrder(a: Bid, b: Bid, c: Bid)
    ensures !Better(a, a)
    ensures Better(a, b) ==> !Better(b, a)
    ensures Better(a, b) && Better(b, c) ==> Better(a, c)
    ensures !Better(a, b) && !Better(b, c) ==> !Better(a, c)
    ensures a.arrival != b.arrival ==> Better(a, b) || Better(b, a)
  {
  }

  lemma {:induction false} BestIsUnbeaten(bids: seq<Bid>, contractAddr: Address, reserve: int)
    ensures match Best(bids, contractAddr, reserve)
            case None => forall x :: x in bids ==> !Eligible(x, contractAddr, reserve)
            case Some(b) => IsUnbeaten(b, bids, contractAddr, reserve)
  {
    if bids == [] {
    } else {
      var last := bids[|bids| - 1];
      BestIsUnbeaten(bids[..|bids| - 1], contractAddr, reserve);
      assert bids == bids[..|bids| - 1] + [last];
    }
  }

  /** On distinct arrival numbers the single pass returns the one and only unbeaten bid. */
  lemma BestIsUniqueMaximum(bids: seq<Bid>, contractAddr: Address, reserve: int, b: Bid)
    requires DistinctArrivals(bids)
    ensures Best(bids, contractAddr, reserve) == Some(b) <==> IsUnbeaten(b, bids, contractAddr, reserve)
  {
    BestIsUnbeaten(bids, contractAddr, reserve);
    if IsUnbeaten(b, bids, contractAddr, reserve) {
      var w := Best(bids, contractAddr, reserve).value;
      assert !Better(w, b) && !Better(b, w);
      assert w.arrival == b.arrival;
    }
  }

  /** The result is a function of the set of bids, not of their order in the list. */
  lemma BestIgnoresListOrder(xs: seq<Bid>, ys: seq<Bid>, contractAddr: Address, reserve: int)
    requires DistinctArrivals(xs) && DistinctArrivals(ys)
    requires forall b :: b in xs <==> b in ys
    ensures Best(xs, contractAddr, reserve) == Best(ys, contractAddr, reserve)
  {
    BestIsUnbeaten(xs, contractAddr, reserve);
    BestIsUnbeaten(ys, contractAddr, reserve);
    var o := Best(xs, contractAddr, reserve);
    if o.Some? {
      BestIsUniqueMaximum(xs, contractAddr, reserve, o.value);
      BestIsUniqueMaximum(ys, contractAddr, reserve, o.value);
    }
  }

  // ---------------------------------------------------------------- filter, sort, take the head

  function EligibleOnly(bids: seq<Bid>, contractAddr: Address, reserve: int): seq<Bid> {
    if bids == [] then []
    else
      var rest := EligibleOnly(bids[..|bids| - 1], contractAddr, reserve);
      if Eligible(bids[|bids| - 1], contractAddr, reserve) then rest + [bids[|bids| - 1]] else rest
  }

  function Insert(b: Bid, sorted: seq<Bid>): seq<Bid> {
    if sorted == [] || Better(b, sorted[0]) then [b] + sorted else [sorted[0]] + Insert(b, sorted[1..])
  }

  function Ranked(bids: seq<Bid>): seq<Bid> {
    if bids == [] then [] else Insert(bids[|bids| - 1], Ranked(bids[..|bids| - 1]))
  }

  ghost predicate RankedDown(bids: seq<Bid>) {
    forall i, j :: 0 <= i < j < |bids| ==> !Better(bids[j], bids[i])
  }

  lemma {:induction false} InsertKeepsRanking(b: Bid, sorted: seq<Bid>)
    requires RankedDown(sorted)
    ensures RankedDown(Insert(b, sorted))
    ensures multiset(Insert(b, sorted)) == multiset(sorted) + multiset{b}
  {
    if sorted == [] {
    } else if Better(b, sorted[0]) {
      forall x | x in sorted ensures !Better(x, b) {
        BetterIsStrictTotalOrder(b, sorted[0], x);
      }
    } else {
      var tail := Insert(b, sorted[1..]);
      InsertKeepsRanking(b, sorted[1..]);
      assert sorted == [sorted[0]] + sorted[1..];
      forall x | x in tail ensures !Better(x, sorted[0]) {
        assert x in multiset(tail);
        assert x == b || x in multiset(sorted[1..]);
        assert x == b || x in sorted[1..];
      }
    }
  }

  lemma {:induction false} RankedIsSortedPermutation(bids: seq<Bid>)
    ensures RankedDown(Ranked(bids))
    ensures multiset(Ranked(bids)) == multiset(bids)
  {
    if bids == [] {
    } else {
      var n := |bids| - 1;
      RankedIsSortedPermutation(bids[..n]);
      InsertKeepsRanking(bids[n], Ranked(bids[..n]));
      assert bids == bids[..n] + [bids[n]];
    }
  }

  /** The single pass equals: keep the eligible bids, sort them, take the head. */
  lemma {:induction false} BestIsHeadOfRanking(bids: seq<Bid>, contractAddr: Address, reserve: int)
    ensures var ranked := Ranked(EligibleOnly(bids, contractAddr, reserve));
            Best(bids, contractAddr, reserve) == if ranked == [] then None else Some(ranked[0])
  {
    if bids == [] {
    } else {
      var n := |bids| - 1;
      BestIsHeadOfRanking(bids[..n], contractAddr, reserve);
      var kept := EligibleOnly(bids[..n], contractAddr, reserve);
      if Eligible(bids[n], contractAddr, reserve) {
        assert (kept + [bids[n]])[..|kept|] == kept;
      }
    }
  }

  // ---------------------------------------------------------------- reserve and decomposition

  /** Applying the reserve inside the pass equals applying it to the reserve-free result. */
  lemma {:induction false} ReserveFactors(bids: seq<Bid>, contractAddr: Address, reserve: int)
    ensures var free := Best(bids, contractAddr, 0);
            Best(bids, contractAddr, reserve) == if free.Some? && free.value.amount >= reserve then free else None
  {
    if bids == [] {
    } else {
      ReserveFactors(bids[..|bids| - 1], contractAddr, reserve);
      BestIsUnbeaten(bids[..|bids| - 1], contractAddr, 0);
    }
  }

  function BetterOf(a: Option<Bid>, b: Option<Bid>): Option<Bid> {
    if b.Some? && (a.None? || Better(b.value, a.value)) then b else a
  }

  /** The winner of a concatenation is the better of the winners of its parts. */
  lemma {:induction false} BestOfConcatenation(xs: seq<Bid>, ys: seq<Bid>, contractAddr: Address, reserve: int)
    ensures Best(xs + ys, contractAddr, reserve)
         == BetterOf(Best(xs, contractAddr, reserve), Best(ys, contractAddr, reserve))
  {
    if ys == [] {
      assert xs + ys == xs;
    } else {
      var n := |ys| - 1;
      BestOfConcatenation(xs, ys[..n], contractAddr, reserve);
      assert (xs + ys)[..|xs + ys| - 1] == xs + ys[..n];
    }
  }

  lemma MoreBidsNeverLowerThePrice(xs: seq<Bid>, ys: seq<Bid>, contractAddr: Address, reserve: int)
    ensures Price(Best(xs + ys, contractAddr, reserve)) >= Price(Best(xs, contractAddr, reserve))
    ensures Best(xs, contractAddr, reserve).Some? ==> Best(xs + ys, contractAddr, reserve).Some?
  {
    BestOfConcatenation(xs, ys, contractAddr, reserve);
    BestIsUnbeaten(ys, contractAddr, reserve);
  }

  /** Bids naming another contract, or below the reserve, can be deleted anywhere without effect. */
  lemma {:induction false} IneligibleBidsNeverMatter(bids: seq<Bid>, contractAddr: Address, reserve: int)
    ensures Best(EligibleOnly(bids, contractAddr, reserve), contractAddr, reserve) == Best(bids, contractAddr, reserve)
  {
    if bids == [] {
    } else {
      var n := |bids| - 1;
      IneligibleBidsNeverMatter(bids[..n], contractAddr, reserve);
      var kept := EligibleOnly(bids[..n], contractAddr, reserve);
      assert (kept + [bids[n]])[..|kept|] == kept;
    }
  }
}

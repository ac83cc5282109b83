/** The TEE's handlers running side by side. A PLACE_BID handler is two atomic steps with the
    unlocked decryption between them; a CLOSE_AUCTION handler is one. */
module Handlers {
  import opened Types
  import opened Auction
  import opened Winner
  import opened Tee
  import Codec

  /** `running` holds the PLACE_BID handlers that have passed their closed check. */
  datatype Node = Node(memory: Memory, running: map<nat, Sent>)

  datatype Act =
    | Begin(handler: nat, sent: Sent)    // closed check, under the read lock
    | Finish(handler: nat)               // decrypt and vet, then append under the write lock
    | CloseNow(message: Message)         // mark and snapshot, under the write lock

  function Do(n: Node, decrypt: Decrypt, act: Act): Node {
    match act
    case Begin(h, sent) =>
      if !sent.message.PlaceBidMessage? || h in n.running || CheckOpen(n.memory, sent.message).Some? then n
      else n.(running := n.running[h := sent])
    case Finish(h) =>
      if h !in n.running || !n.running[h].message.PlaceBidMessage? then n
      else
        var rest := n.(running := n.running - {h});
        (match Vet(decrypt, n.running[h].message)
         case Bad(_) => rest
         case Good(p) => rest.(memory := Append(n.memory, p, n.running[h].timestamp)))
    case CloseNow(m) => if m.CloseMessage? then n.(memory := MarkClosed(n.memory, m.auctionId)) else n
  }

  function Exec(n: Node, decrypt: Decrypt, acts: seq<Act>): Node {
    if acts == [] then n else Do(Exec(n, decrypt, acts[..|acts| - 1]), decrypt, acts[|acts| - 1])
  }

  /** What a close answered with at position `k` of a run. */
  function ResultAt(n: Node, decrypt: Decrypt, acts: seq<Act>, k: nat): Codec.CloseResult
    requires k < |acts| && acts[k].CloseNow? && acts[k].message.CloseMessage?
  {
    ResultOf(BidsOf(Exec(n, decrypt, acts[..k]).memory, acts[k].message.auctionId), acts[k].message)
  }

  lemma {:induction false} ExecSplits(n: Node, decrypt: Decrypt, first: seq<Act>, later: seq<Act>)
    ensures Exec(n, decrypt, first + later) == Exec(Exec(n, decrypt, first), decrypt, later)
  {
    if later == [] {
      assert first + later == first;
    } else {
      var k := |later| - 1;
      ExecSplits(n, decrypt, first, later[..k]);
      assert (first + later)[..|first + later| - 1] == first + later[..k];
    }
  }

  // ---------------------------------------------------------------- the counter, in every interleaving

  lemma DoKeepsCount(n: Node, decrypt: Decrypt, act: Act)
    requires Counted(n.memory)
    ensures Counted(Do(n, decrypt, act).memory)
  {
    if act.Finish? && act.handler in n.running && n.running[act.handler].message.PlaceBidMessage? {
      var vetted := Vet(decrypt, n.running[act.handler].message);
      if vetted.Good? {
        AppendCounts(n.memory, vetted.payload, n.running[act.handler].timestamp);
      }
    }
  }

  lemma {:induction false} CounterHoldsInEveryInterleaving(decrypt: Decrypt, acts: seq<Act>)
    ensures Counted(Exec(Node(EMPTY, map[]), decrypt, acts).memory)
  {
    if acts == [] {
      EmptyIsCounted();
    } else {
      var k := |acts| - 1;
      CounterHoldsInEveryInterleaving(decrypt, acts[..k]);
      var n := Exec(Node(EMPTY, map[]), decrypt, acts[..k]);
      DoKeepsCount(n, decrypt, acts[k]);
    }
  }

  // ---------------------------------------------------------------- what a close freezes

  /** `b` is the bid encrypted in that handler's instruction. */
  predicate StemsFrom(decrypt: Decrypt, sent: Sent, b: Bid) {
    Matches(decrypt, sent.message) && b == Encrypted(decrypt, sent, b.arrival)
  }

  predicate InFlight(n: Node, h: nat, key: U256) {
    h in n.running && n.running[h].message.auctionId == key
  }

  ghost predicate Distinct(hs: seq<nat>) { forall i, j :: 0 <= i < j < |hs| ==> hs[i] != hs[j] }

  /** After `key` is closed at `n`, the list at `m` has grown by `late`, the i-th of which came from
      handler `from[i]`, in flight at the close and finished since; nothing else is in flight. */
  ghost predicate GrewOnlyByLate(n: Node, m: Node, decrypt: Decrypt, key: U256, late: seq<Bid>, from: seq<nat>) {
    && key in m.memory.closed
    && BidsOf(m.memory, key) == BidsOf(n.memory, key) + late
    && |from| == |late| && Distinct(from)
    && (forall i :: 0 <= i < |late| ==> InFlight(n, from[i], key) && StemsFrom(decrypt, n.running[from[i]], late[i]))
    && (forall h :: InFlight(m, h, key) ==> h !in from && h in n.running && n.running[h] == m.running[h])
  }

  lemma DoAfterClose(n: Node, m: Node, decrypt: Decrypt, key: U256, late: seq<Bid>, from: seq<nat>, act: Act)
    returns (late1: seq<Bid>, from1: seq<nat>)
    requires GrewOnlyByLate(n, m, decrypt, key, late, from)
    ensures GrewOnlyByLate(n, Do(m, decrypt, act), decrypt, key, late1, from1)
  {
    late1, from1 := late, from;
    var m1 := Do(m, decrypt, act);
    if act.Finish? && InFlight(m, act.handler, key) && m.running[act.handler].message.PlaceBidMessage? {
      var sent := m.running[act.handler];
      var vetted := Vet(decrypt, sent.message);
      if vetted.Good? {
        var stored := BidsOf(m1.memory, key);
        late1, from1 := late + [stored[|stored| - 1]], from + [act.handler];
      }
    }
  }

  /** Main result on closing: from any state in which the auction is closed, through any interleaving,
      its list grows only by bids already past their closed check at that state, each at most once. */
  lemma {:induction false} OnlyInFlightBidsArriveLate(n: Node, decrypt: Decrypt, acts: seq<Act>, key: U256)
    returns (late: seq<Bid>, from: seq<nat>)
    requires key in n.memory.closed
    ensures GrewOnlyByLate(n, Exec(n, decrypt, acts), decrypt, key, late, from)
  {
    if acts == [] {
      late, from := [], [];
    } else {
      var k := |acts| - 1;
      late, from := OnlyInFlightBidsArriveLate(n, decrypt, acts[..k], key);
      late, from := DoAfterClose(n, Exec(n, decrypt, acts[..k]), decrypt, key, late, from, acts[k]);
    }
  }

  /** With none in flight the list is frozen for good. */
  lemma {:induction false} ClosedListIsFrozen(n: Node, decrypt: Decrypt, acts: seq<Act>, key: U256)
    requires key in n.memory.closed && forall h :: !InFlight(n, h, key)
    ensures var m := Exec(n, decrypt, acts);
            BidsOf(m.memory, key) == BidsOf(n.memory, key) && key in m.memory.closed && forall h :: !InFlight(m, h, key)
  {
    if acts == [] {
    } else {
      var k := |acts| - 1;
      ClosedListIsFrozen(n, decrypt, acts[..k], key);
      var m := Exec(n, decrypt, acts[..k]);
      assert acts[k].Finish? ==> !InFlight(m, acts[k].handler, key);
      forall h ensures !InFlight(Do(m, decrypt, acts[k]), h, key) {
        assert !InFlight(m, h, key);
      }
    }
  }

  lemma {:induction false} ListsOnlyGrow(n: Node, decrypt: Decrypt, acts: seq<Act>, key: U256)
    ensures BidsOf(n.memory, key) <= BidsOf(Exec(n, decrypt, acts).memory, key)
  {
    if acts == [] {
    } else {
      ListsOnlyGrow(n, decrypt, acts[..|acts| - 1], key);
    }
  }

  /** Every close answers with the selection over a prefix of the final list. */
  lemma CloseSelectsFromAPrefix(n: Node, decrypt: Decrypt, acts: seq<Act>, k: nat)
    requires k < |acts| && acts[k].CloseNow? && acts[k].message.CloseMessage?
    ensures var m := acts[k].message;
            var final := BidsOf(Exec(n, decrypt, acts).memory, m.auctionId);
            exists p: nat :: p <= |final| && ResultAt(n, decrypt, acts, k) == ResultOf(final[..p], m)
  {
    var m := acts[k].message;
    assert acts == acts[..k] + acts[k..];
    ExecSplits(n, decrypt, acts[..k], acts[k..]);
    var at := Exec(n, decrypt, acts[..k]);
    ListsOnlyGrow(at, decrypt, acts[k..], m.auctionId);
    var seen := BidsOf(at.memory, m.auctionId);
    assert BidsOf(Exec(n, decrypt, acts).memory, m.auctionId)[..|seen|] == seen;
  }

  /** Two closes with the same message: the later price is never lower; they agree when the list did
      not change between them, in particular when no bid of the auction was in flight at the first. */
  lemma ClosesAgree(n: Node, decrypt: Decrypt, acts: seq<Act>, j: nat, k: nat)
    requires j < k < |acts| && acts[j].CloseNow? && acts[j].message.CloseMessage? && acts[k] == acts[j]
    ensures ResultAt(n, decrypt, acts, j).clearingPrice <= ResultAt(n, decrypt, acts, k).clearingPrice
    ensures var key := acts[j].message.auctionId;
            var first, second := Exec(n, decrypt, acts[..j]), Exec(n, decrypt, acts[..k]);
            && (BidsOf(first.memory, key) == BidsOf(second.memory, key) ==>
                  ResultAt(n, decrypt, acts, j) == ResultAt(n, decrypt, acts, k))
            && ((forall h :: !InFlight(first, h, key)) ==>
                ResultAt(n, decrypt, acts, j) == ResultAt(n, decrypt, acts, k))
  {
    var m := acts[j].message;
    var first, second := Exec(n, decrypt, acts[..j]), Exec(n, decrypt, acts[..k]);
    var marked := Do(first, decrypt, acts[j]);
    assert acts[..k] == acts[..j + 1] + acts[j + 1..k];
    assert acts[..j + 1][..j] == acts[..j];
    ExecSplits(n, decrypt, acts[..j + 1], acts[j + 1..k]);
    ListsOnlyGrow(marked, decrypt, acts[j + 1..k], m.auctionId);
    var xs, all := BidsOf(first.memory, m.auctionId), BidsOf(second.memory, m.auctionId);
    assert all == xs + all[|xs|..];
    MoreBidsNeverLowerThePrice(xs, all[|xs|..], m.contractAddr, m.reservePrice);
    if forall h :: !InFlight(first, h, m.auctionId) {
      forall h ensures !InFlight(marked, h, m.auctionId) {
        assert !InFlight(first, h, m.auctionId);
      }
      ClosedListIsFrozen(marked, decrypt, acts[j + 1..k], m.auctionId);
    }
  }

  // ---------------------------------------------------------------- serialized handlers

  /** One instruction's steps, run back to back. */
  function Alone(sent: Sent): seq<Act> {
    if sent.message.PlaceBidMessage? then [Begin(0, sent), Finish(0)] else [CloseNow(sent.message)]
  }

  function OneByOne(sents: seq<Sent>): seq<Act> {
    if sents == [] then [] else OneByOne(sents[..|sents| - 1]) + Alone(sents[|sents| - 1])
  }

  lemma AloneIsDeliver(s: Memory, decrypt: Decrypt, sent: Sent)
    ensures Exec(Node(s, map[]), decrypt, Alone(sent)) == Node(Deliver(s, decrypt, sent), map[])
  {
    var n := Node(s, map[]);
    var acts := Alone(sent);
    assert Exec(n, decrypt, []) == n;
    if sent.message.PlaceBidMessage? {
      var begun := Do(n, decrypt, acts[0]);
      assert acts[..1] == [acts[0]] && acts[..1][..0] == [];
      assert Exec(n, decrypt, acts[..1]) == begun;
      if 0 in begun.running {
        assert begun.running - {0} == map[];
        assert Vet(decrypt, sent.message).Good? ==>
            Vet(decrypt, sent.message).payload.auctionId == sent.message.auctionId;
      }
    } else {
      assert acts[..0] == [];
    }
  }

  /** The serialized handler is the special case of the interleaving one: after each instruction no
      handler is running and the memory is that of delivering the instructions in turn. */
  lemma {:induction false} OneByOneIsDeliverAll(decrypt: Decrypt, sents: seq<Sent>)
    ensures Exec(Node(EMPTY, map[]), decrypt, OneByOne(sents)) == Node(DeliverAll(EMPTY, decrypt, sents), map[])
  {
    if sents == [] {
    } else {
      var k := |sents| - 1;
      OneByOneIsDeliverAll(decrypt, sents[..k]);
      ExecSplits(Node(EMPTY, map[]), decrypt, OneByOne(sents[..k]), Alone(sents[k]));
      AloneIsDeliver(DeliverAll(EMPTY, decrypt, sents[..k]), decrypt, sents[k]);
    }
  }

  /** The answer a serialized TEE gives to instruction `k`. */
  function SerialResult(decrypt: Decrypt, sents: seq<Sent>, k: nat): Codec.CloseResult
    requires k < |sents| && sents[k].message.CloseMessage?
  {
    ResultOf(BidsOf(DeliverAll(EMPTY, decrypt, sents[..k]), sents[k].message.auctionId), sents[k].message)
  }

  lemma {:induction false} OneByOneSuffix(xs: seq<Sent>, ys: seq<Sent>) returns (rest: seq<Act>)
    requires xs <= ys
    ensures OneByOne(ys) == OneByOne(xs) + rest
  {
    if |xs| == |ys| {
      rest := [];
      assert xs == ys;
    } else {
      var n := |ys| - 1;
      assert xs <= ys[..n];
      var middle := OneByOneSuffix(xs, ys[..n]);
      rest := middle + Alone(ys[n]);
      assert OneByOne(xs) + rest == (OneByOne(xs) + middle) + Alone(ys[n]);
    }
  }

  /** The list of an auction closed by a serialized TEE stays as it is. */
  lemma {:induction false} SerialListIsFrozen(decrypt: Decrypt, xs: seq<Sent>, ys: seq<Sent>, key: U256)
    requires xs <= ys && key in DeliverAll(EMPTY, decrypt, xs).closed
    ensures BidsOf(DeliverAll(EMPTY, decrypt, ys), key) == BidsOf(DeliverAll(EMPTY, decrypt, xs), key)
  {
    OneByOneIsDeliverAll(decrypt, xs);
    OneByOneIsDeliverAll(decrypt, ys);
    var later := OneByOneSuffix(xs, ys);
    ExecSplits(Node(EMPTY, map[]), decrypt, OneByOne(xs), later);
    ClosedListIsFrozen(Node(DeliverAll(EMPTY, decrypt, xs), map[]), decrypt, later, key);
  }

  /** With serialized handlers, re-issuing a close always reproduces the result. */
  lemma {:induction false} SerializedClosesAgree(decrypt: Decrypt, sents: seq<Sent>, j: nat, k: nat)
    requires j < k < |sents| && sents[j].message.CloseMessage? && sents[k].message == sents[j].message
    ensures SerialResult(decrypt, sents, j) == SerialResult(decrypt, sents, k)
  {
    var upTo := sents[..j + 1];
    assert upTo[..j] == sents[..j];
    assert DeliverAll(EMPTY, decrypt, upTo)
        == MarkClosed(DeliverAll(EMPTY, decrypt, sents[..j]), sents[j].message.auctionId);
    SerialListIsFrozen(decrypt, upTo, sents[..k], sents[j].message.auctionId);
  }

}

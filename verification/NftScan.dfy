/** frontend/lib/nft.ts: listing the ids an address owns in DemoAsset721, on a fixed ledger state. */
module NftScan {
  import opened Types
  import opened Erc721

  const MAX_SEQUENTIAL_SCAN: nat := 600

  datatype Method = Enumerable | Sequential

  datatype Enumeration = Enumeration(tokenIds: seq<nat>, how: Method, truncated: bool)

  /** The candidates 0 .. top - 1 whose `ownerOf` succeeds with `owner`, in order. */
  function OwnedAmong(n: Nft, owner: Address, top: nat): seq<nat> {
    if top == 0 then []
    else
      var rest := OwnedAmong(n, owner, top - 1);
      if OwnerOf(n, top - 1) == Ok(owner) then rest + [top - 1] else rest
  }

  /** `trySequentialScan`: DemoAsset721 answers `nextTokenId`, and the sweep includes the ceiling. */
  function SequentialScan(n: Nft, owner: Address, balance: nat): Option<Enumeration> {
    var supply := n.nextTokenId;
    if supply == 0 then None
    else
      var ceiling := if supply > MAX_SEQUENTIAL_SCAN then MAX_SEQUENTIAL_SCAN else supply;
      var truncated := ceiling < supply;
      var ids := OwnedAmong(n, owner, ceiling + 1);
      if ids == [] then None
      else Some(Enumeration(ids, Sequential, truncated && |ids| < balance))
  }

  datatype Listing = Listed(list: Enumeration) | AskExplorer | Thrown

  /** `enumerateOwnedNfts` up to its last fallback, which asks an explorer. `balanceOf` rejects the zero
      address. The collection is not ERC721Enumerable, so no index lookup succeeds for a positive
      balance. */
  function EnumerateOwned(n: Nft, owner: Address): Listing {
    var balance := Held(n.balances, owner);
    if owner == ZERO_ADDRESS then Thrown
    else if balance == 0 then Listed(Enumeration([], Enumerable, false))
    else
      match SequentialScan(n, owner, balance)
      case Some(e) => Listed(e)
      case None => AskExplorer
  }

  /** The owner's ids: exactly those, ascending, without repeats. */
  ghost predicate Complete(n: Nft, owner: Address, ids: seq<nat>) {
    && (forall id: nat :: id in ids <==> OwnerAt(n, id) == owner)
    && (forall i, j :: 0 <= i < j < |ids| ==> ids[i] < ids[j])
  }

  /** The owner's ids up to the cap: exactly those, ascending, without repeats. */
  ghost predicate ListsUpTo(n: Nft, owner: Address, ids: seq<nat>, cap: nat) {
    && (forall id: nat :: id in ids <==> id <= cap && OwnerAt(n, id) == owner)
    && (forall i, j :: 0 <= i < j < |ids| ==> ids[i] < ids[j])
  }

  lemma {:induction false} ScanIsAscending(n: Nft, owner: Address, top: nat)
    requires owner != ZERO_ADDRESS
    ensures var ids := OwnedAmong(n, owner, top);
            && (forall id: nat :: id in ids <==> id < top && OwnerAt(n, id) == owner)
            && (forall i, j :: 0 <= i < j < |ids| ==> ids[i] < ids[j])
            && |ids| == CountOwned(n.owners, owner, top)
  {
    if top == 0 {
    } else {
      ScanIsAscending(n, owner, top - 1);
      var rest := OwnedAmong(n, owner, top - 1);
      assert forall i :: 0 <= i < |rest| ==> rest[i] in rest;
      assert OwnerAt(n, top - 1) == owner <==> top - 1 in n.owners && n.owners[top - 1] == owner;
    }
  }

  lemma {:induction false} CountGrows(owners: map<nat, Address>, a: Address, low: nat, high: nat)
    requires low <= high
    ensures CountOwned(owners, a, low) <= CountOwned(owners, a, high)
    ensures CountOwned(owners, a, low) == CountOwned(owners, a, high)
       <==> forall id: nat :: low <= id < high ==> !(id in owners && owners[id] == a)
  {
    if low == high {
    } else {
      CountGrows(owners, a, low, high - 1);
    }
  }

  /** The scan finds everything below its cap; comparing the number found with the balance decides,
      both ways, whether anything lies beyond. */
  lemma ScanAgreesWithLedger(n: Nft, owner: Address)
    requires Ledger(n) && owner != ZERO_ADDRESS && Held(n.balances, owner) > 0
    ensures match SequentialScan(n, owner, Held(n.balances, owner))
            case None => forall id: nat :: id <= MAX_SEQUENTIAL_SCAN ==> OwnerAt(n, id) != owner
            case Some(e) =>
              && e.how == Sequential && e.tokenIds != [] && ListsUpTo(n, owner, e.tokenIds, 600)
              && e.truncated == !Complete(n, owner, e.tokenIds)
  {
    var next := n.nextTokenId;
    var top := (if next > MAX_SEQUENTIAL_SCAN then MAX_SEQUENTIAL_SCAN else next) + 1;
    ScanIsAscending(n, owner, top);
    assert forall id: nat :: id in n.owners && n.owners[id] == owner ==> OwnerAt(n, id) == owner;
    var ids := OwnedAmong(n, owner, top);
    assert ids != [] ==> ids[0] in ids;
    if top <= next {
      CountGrows(n.owners, owner, top, next);
    } else {
      CountGrows(n.owners, owner, next, top);
    }
    assert forall id: nat :: OwnerAt(n, id) == owner ==> id in n.owners && n.owners[id] == owner && id < next;
  }

  /** Main result: whenever the list comes back without the truncated flag it is complete, also when
      the id range was capped, and a flagged list really misses something. The explorer is asked
      exactly for owners all of whose ids lie beyond the cap. */
  lemma EnumerationIsCompleteUnlessFlagged(n: Nft, owner: Address)
    requires Ledger(n)
    ensures match EnumerateOwned(n, owner)
            case Listed(e) =>
              && owner != 0 && ListsUpTo(n, owner, e.tokenIds, 600)
              && e.truncated == !Complete(n, owner, e.tokenIds)
              && (e.tokenIds == [] <==> e.how == Enumerable) && (e.tokenIds == [] ==> !e.truncated)
            case AskExplorer => owner != 0
                                && (forall id: nat :: OwnerAt(n, id) == owner ==> id > 600)
                                && exists id: nat :: OwnerAt(n, id) == owner
            case Thrown => owner == ZERO_ADDRESS
  {
    if owner == ZERO_ADDRESS {
    } else if Held(n.balances, owner) == 0 {
      forall id: nat ensures OwnerAt(n, id) != owner {
        if OwnerAt(n, id) == owner {
          OwnedIdIsCounted(n.owners, id, n.nextTokenId);
        }
      }
    } else {
      ScanAgreesWithLedger(n, owner);
      ScanIsAscending(n, owner, n.nextTokenId);
      var all := OwnedAmong(n, owner, n.nextTokenId);
      assert all[0] in all;
    }
  }
}

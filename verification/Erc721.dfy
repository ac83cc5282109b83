/** contracts/DemoAsset721.sol: the ERC-721 ledger, as a value with its transitions. */
module Erc721 {
  import opened Types
  import opened Sums

  datatype Nft = Nft(
    admin: Address,                        // `owner`: the only account allowed to mint
    owners: map<nat, Address>,
    balances: map<Address, U256>,
    approvals: map<nat, Address>,
    operators: set<(Address, Address)>,    // (holder, operator)
    nextTokenId: U256)

  // Solidity mappings read zero where nothing was written.
  function OwnerAt(n: Nft, id: nat): Address { if id in n.owners then n.owners[id] else ZERO_ADDRESS }
  function ApprovedAt(n: Nft, id: nat): Address { if id in n.approvals then n.approvals[id] else ZERO_ADDRESS }
  function Held(balances: map<Address, U256>, a: Address): U256 { if a in balances then balances[a] else 0 }

  function Deployed(admin: Address): Nft {
    Nft(admin, map[], map[], map[], {}, 1)
  }

  function OwnerOf(n: Nft, id: nat): Result<Address> {
    var _ :- Require(OwnerAt(n, id) != ZERO_ADDRESS, NoSuchToken);
    Ok(OwnerAt(n, id))
  }

  function Mint(n: Nft, caller: Address, to: Address): Result<Nft> {
    var _ :- Require(caller == n.admin, NotOwner);
    var _ :- Require(to != ZERO_ADDRESS, ZeroRecipient);
    var _ :- Require(n.nextTokenId < MAX_U256, Overflow);
    var _ :- Require(Held(n.balances, to) < MAX_U256, Overflow);
    Ok(n.(owners := n.owners[n.nextTokenId := to],
          balances := n.balances[to := Held(n.balances, to) + 1],
          nextTokenId := n.nextTokenId + 1))
  }

  function Approve(n: Nft, caller: Address, to: Address, id: nat): Result<Nft> {
    var holder :- OwnerOf(n, id);
    var _ :- Require(caller == holder || (holder, caller) in n.operators, NotAuthorized);
    Ok(n.(approvals := n.approvals[id := to]))
  }

  function SetApprovalForAll(n: Nft, caller: Address, operator: Address, approved: bool): Nft {
    n.(operators := if approved then n.operators + {(caller, operator)} else n.operators - {(caller, operator)})
  }

  predicate MayMove(n: Nft, caller: Address, from: Address, id: nat) {
    caller == from || ApprovedAt(n, id) == caller || (from, caller) in n.operators
  }

  function TransferFrom(n: Nft, caller: Address, from: Address, to: Address, id: nat): Result<Nft> {
    var holder :- OwnerOf(n, id);
    var _ :- Require(holder == from, WrongFrom);
    var _ :- Require(to != ZERO_ADDRESS, ZeroRecipient);
    var _ :- Require(MayMove(n, caller, from, id), NotAuthorized);
    var _ :- Require(Held(n.balances, from) >= 1, Underflow);
    var debited := n.balances[from := Held(n.balances, from) - 1];
    var _ :- Require(Held(debited, to) < MAX_U256, Overflow);
    Ok(n.(approvals := n.approvals - {id},
          balances := debited[to := Held(debited, to) + 1],
          owners := n.owners[id := to]))
  }

  /** The state-changing functions, as one request. */
  datatype Op =
    | Minting(to: Address)
    | Approving(to: Address, id: nat)
    | SettingOperator(operator: Address, approved: bool)
    | Moving(from: Address, to: Address, id: nat)

  function Do(n: Nft, caller: Address, op: Op): Result<Nft> {
    match op
    case Minting(to) => Mint(n, caller, to)
    case Approving(to, id) => Approve(n, caller, to, id)
    case SettingOperator(operator, approved) => Ok(SetApprovalForAll(n, caller, operator, approved))
    case Moving(from, to, id) => TransferFrom(n, caller, from, to, id)
  }

  /** Requests by any callers in turn; one that reverts changes nothing. */
  function After(n: Nft, requests: seq<(Address, Op)>): Nft {
    if requests == [] then n
    else
      var before := After(n, requests[..|requests| - 1]);
      var r := Do(before, requests[|requests| - 1].0, requests[|requests| - 1].1);
      if r.Ok? then r.value else before
  }

  // ---------------------------------------------------------------- the ledger invariant

  /** How many ids below `k` belong to `a`. */
  ghost function CountOwned(owners: map<nat, Address>, a: Address, k: nat): nat {
    if k == 0 then 0
    else CountOwned(owners, a, k - 1) + (if k - 1 in owners && owners[k - 1] == a then 1 else 0)
  }

  /** Minted ids are exactly 1 .. nextTokenId - 1, balances count ownership and sum to the number
      minted, and an id that was never minted carries no approval. */
  ghost predicate Ledger(n: Nft) {
    && 1 <= n.nextTokenId
    && (forall id: nat :: OwnerAt(n, id) != ZERO_ADDRESS <==> 1 <= id < n.nextTokenId)
    && (forall a: Address :: a != ZERO_ADDRESS ==> Held(n.balances, a) == CountOwned(n.owners, a, n.nextTokenId))
    && Held(n.balances, ZERO_ADDRESS) == 0
    && (forall id: nat :: OwnerAt(n, id) == ZERO_ADDRESS ==> ApprovedAt(n, id) == ZERO_ADDRESS)
    && Sum(n.balances) == n.nextTokenId - 1
  }

  lemma {:induction false} CountAfterWrite(owners: map<nat, Address>, id: nat, to: Address, a: Address, k: nat)
    ensures CountOwned(owners[id := to], a, k)
            + (if id < k && id in owners && owners[id] == a then 1 else 0)
         == CountOwned(owners, a, k) + (if id < k && to == a then 1 else 0)
  {
    if k == 0 {
    } else {
      CountAfterWrite(owners, id, to, a, k - 1);
    }
  }

  lemma {:induction false} OwnedIdIsCounted(owners: map<nat, Address>, id: nat, k: nat)
    requires id < k && id in owners
    ensures CountOwned(owners, owners[id], k) >= 1
  {
    if id == k - 1 {
    } else {
      OwnedIdIsCounted(owners, id, k - 1);
    }
  }

  /** Under the ledger invariant a transfer is refused for authorization reasons only: neither the
      checked subtraction nor the checked addition can fail, self-transfers included. */
  lemma TransferNeverFailsOnArithmetic(n: Nft, caller: Address, from: Address, to: Address, id: nat)
    requires Ledger(n)
    ensures TransferFrom(n, caller, from, to, id).Ok?
       <==> && from != ZERO_ADDRESS && OwnerAt(n, id) == from && to != ZERO_ADDRESS
            && (caller == from || ApprovedAt(n, id) == caller || (from, caller) in n.operators)
  {
    if from != ZERO_ADDRESS && OwnerAt(n, id) == from && to != ZERO_ADDRESS {
      OwnedIdIsCounted(n.owners, id, n.nextTokenId);
      if from != to {
        TwoCellsWithinSum(n.balances, from, to);
      } else {
        CellWithinSum(n.balances, from);
      }
    }
  }

  /** A transfer moves one id from its holder to the recipient, clears that id's approval, and leaves
      every other id, approval, balance and operator alone; to oneself it changes no balance. */
  lemma TransferMovesOneToken(n: Nft, caller: Address, from: Address, to: Address, id: nat)
    requires TransferFrom(n, caller, from, to, id).Ok?
    ensures var m := TransferFrom(n, caller, from, to, id).value;
            && (forall j: nat :: OwnerAt(m, j) == if j == id then to else OwnerAt(n, j))
            && (forall j: nat :: ApprovedAt(m, j) == if j == id then ZERO_ADDRESS else ApprovedAt(n, j))
            && (forall a: Address :: Held(m.balances, a)
                  == Held(n.balances, a) + (if a == to then 1 else 0) - (if a == from then 1 else 0))
            && m.operators == n.operators && m.nextTokenId == n.nextTokenId && m.admin == n.admin
  {
  }

  lemma DeployedIsLedger(admin: Address)
    ensures Ledger(Deployed(admin))
  {
    forall a: Address | a != ZERO_ADDRESS
      ensures CountOwned(map[], a, 1) == 0
    {
      assert CountOwned(map[], a, 0) == 0;
    }
  }

  lemma MintKeepsLedger(n: Nft, caller: Address, to: Address)
    requires Ledger(n)
    ensures Mint(n, caller, to).Ok? ==> Ledger(Mint(n, caller, to).value)
    ensures Mint(n, caller, to).Ok?
       <==> caller == n.admin && to != ZERO_ADDRESS && n.nextTokenId < MAX_U256
  {
    CellWithinSum(n.balances, to);
    var r := Mint(n, caller, to);
    if r.Ok? {
      var m := r.value;
      var minted := n.nextTokenId;
      assert OwnerAt(n, minted) == ZERO_ADDRESS;
      SumUpdate(n.balances, to, Held(n.balances, to) + 1);
      forall a: Address | a != ZERO_ADDRESS
        ensures Held(m.balances, a) == CountOwned(m.owners, a, m.nextTokenId)
      {
        CountAfterWrite(n.owners, minted, to, a, minted);
      }
      forall id: nat
        ensures OwnerAt(m, id) != ZERO_ADDRESS <==> 1 <= id < m.nextTokenId
        ensures ApprovedAt(m, id) == ApprovedAt(n, id)
      {
        assert id != minted ==> OwnerAt(m, id) == OwnerAt(n, id);
      }
    }
  }

  lemma ApproveKeepsLedger(n: Nft, caller: Address, to: Address, id: nat)
    requires Ledger(n)
    ensures Approve(n, caller, to, id).Ok? ==> Ledger(Approve(n, caller, to, id).value)
  {
    var r := Approve(n, caller, to, id);
    if r.Ok? {
      var m := r.value;
      forall j: nat
        ensures OwnerAt(m, j) == OwnerAt(n, j)
        ensures j != id ==> ApprovedAt(m, j) == ApprovedAt(n, j)
      {
      }
    }
  }

  lemma TransferKeepsLedger(n: Nft, caller: Address, from: Address, to: Address, id: nat)
    requires Ledger(n)
    ensures TransferFrom(n, caller, from, to, id).Ok? ==> Ledger(TransferFrom(n, caller, from, to, id).value)
  {
    var r := TransferFrom(n, caller, from, to, id);
    if r.Ok? {
      var m := r.value;
      var debited: map<Address, U256> := n.balances[from := Held(n.balances, from) - 1];
      SumUpdate(n.balances, from, Held(n.balances, from) - 1);
      SumUpdate(debited, to, Held(debited, to) + 1);
      forall a: Address | a != ZERO_ADDRESS
        ensures Held(m.balances, a) == CountOwned(m.owners, a, m.nextTokenId)
      {
        CountAfterWrite(n.owners, id, to, a, n.nextTokenId);
      }
      forall j: nat
        ensures j != id ==> OwnerAt(m, j) == OwnerAt(n, j) && ApprovedAt(m, j) == ApprovedAt(n, j)
      {
      }
      assert OwnerAt(m, id) == to && OwnerAt(n, id) == from;
    }
  }

  lemma OperatorKeepsLedger(n: Nft, caller: Address, operator: Address, approved: bool)
    requires Ledger(n)
    ensures Ledger(SetApprovalForAll(n, caller, operator, approved))
  {
    var m := SetApprovalForAll(n, caller, operator, approved);
    forall j: nat
      ensures OwnerAt(m, j) == OwnerAt(n, j) && ApprovedAt(m, j) == ApprovedAt(n, j)
    {
    }
  }

  /** When a request succeeds: a mint for the administrator, an approval for the holder or one of its
      operators, a transfer for the holder, its operators or the one approved, and nothing else matters. */
  lemma RequestsSucceedExactly(n: Nft, caller: Address, op: Op)
    requires Ledger(n)
    ensures Do(n, caller, op).Ok?
       <==> match op
            case Minting(to) => caller == n.admin && to != 0 && n.nextTokenId < MAX_U256
            case Approving(_, id) =>
              && id in n.owners && 1 <= id < n.nextTokenId
              && (caller == n.owners[id] || (n.owners[id], caller) in n.operators)
            case SettingOperator(_, _) => true
            case Moving(from, to, id) =>
              && id in n.owners && 1 <= id < n.nextTokenId && n.owners[id] == from && to != 0
              && (|| caller == from || (from, caller) in n.operators
                  || (if id in n.approvals then n.approvals[id] == caller else caller == 0))
  {
    assert forall id: nat :: 1 <= id < n.nextTokenId ==> OwnerAt(n, id) != ZERO_ADDRESS;
    match op {
      case Minting(to) => MintKeepsLedger(n, caller, to);
      case Moving(from, to, id) => TransferNeverFailsOnArithmetic(n, caller, from, to, id);
      case _ =>
    }
  }

  function OwnerAfter(n: Nft, op: Op, id: nat): Address {
    match op
    case Minting(to) => if id == n.nextTokenId then to else OwnerAt(n, id)
    case Moving(_, to, moved) => if id == moved then to else OwnerAt(n, id)
    case _ => OwnerAt(n, id)
  }

  function ApprovedAfter(n: Nft, op: Op, id: nat): Address {
    match op
    case Approving(to, approved) => if id == approved then to else ApprovedAt(n, id)
    case Moving(_, _, moved) => if id == moved then 0 else ApprovedAt(n, id)
    case _ => ApprovedAt(n, id)
  }

  predicate OperatorAfter(n: Nft, caller: Address, op: Op, holder: Address, operator: Address) {
    if op.SettingOperator? && holder == caller && operator == op.operator then op.approved
    else (holder, operator) in n.operators
  }

  /** What a request that succeeds changes, everywhere at once. */
  lemma RequestsChangeExactly(n: Nft, caller: Address, op: Op)
    requires Do(n, caller, op).Ok?
    ensures var m := Do(n, caller, op).value;
            && m.admin == n.admin
            && (forall id: nat :: OwnerAt(m, id) == OwnerAfter(n, op, id))
            && (forall id: nat :: ApprovedAt(m, id) == ApprovedAfter(n, op, id))
            && (forall h: Address, o: Address :: (h, o) in m.operators <==> OperatorAfter(n, caller, op, h, o))
            && m.nextTokenId == n.nextTokenId + (if op.Minting? then 1 else 0)
  {
    match op {
      case Moving(from, to, id) => TransferMovesOneToken(n, caller, from, to, id);
      case _ =>
    }
  }

  lemma DoKeepsLedger(n: Nft, caller: Address, op: Op)
    requires Ledger(n)
    ensures Do(n, caller, op).Ok? ==> Ledger(Do(n, caller, op).value)
  {
    match op {
      case Minting(to) => MintKeepsLedger(n, caller, to);
      case Approving(to, id) => ApproveKeepsLedger(n, caller, to, id);
      case SettingOperator(operator, approved) => OperatorKeepsLedger(n, caller, operator, approved);
      case Moving(from, to, id) => TransferKeepsLedger(n, caller, from, to, id);
    }
  }

  /** Main result on the ledger: it holds in every state reachable from deployment. */
  lemma {:induction false} LedgerHoldsInEveryRun(admin: Address, requests: seq<(Address, Op)>)
    ensures Ledger(After(Deployed(admin), requests))
  {
    if requests == [] {
      DeployedIsLedger(admin);
    } else {
      var k := |requests| - 1;
      LedgerHoldsInEveryRun(admin, requests[..k]);
      DoKeepsLedger(After(Deployed(admin), requests[..k]), requests[k].0, requests[k].1);
    }
  }

  // ---------------------------------------------------------------- the contract object

  /** The contract as an object whose mappings are overwritten in place. `Valid` is the ledger
      invariant, so each `-=` and `+=` below is proved to stay within its width. */
  class DemoAsset721 {
    const admin: Address
    var owners: map<nat, Address>
    var balances: map<Address, U256>
    var approvals: map<nat, Address>
    var operators: set<(Address, Address)>
    var nextTokenId: U256

    ghost function Contents(): Nft
      reads this
    {
      Nft(admin, owners, balances, approvals, operators, nextTokenId)
    }

    ghost predicate Valid()
      reads this
    {
      Ledger(Contents())
    }

    constructor (deployer: Address)
      ensures Valid() && Contents() == Deployed(deployer)
    {
      admin := deployer;
      owners, balances, approvals, operators, nextTokenId := map[], map[], map[], {}, 1;
      new;
      DeployedIsLedger(deployer);
    }

    method MintTo(caller: Address, to: Address) returns (r: Result<nat>)
      requires Valid()
      modifies this
      ensures Valid()
      ensures match Mint(old(Contents()), caller, to)
              case Ok(m) => Contents() == m && r == Ok(old(nextTokenId))
              case Revert(e) => Contents() == old(Contents()) && r == Revert(e)
    {
      MintKeepsLedger(Contents(), caller, to);
      var _ :- Require(caller == admin, NotOwner);
      var _ :- Require(to != ZERO_ADDRESS, ZeroRecipient);
      var _ :- Require(nextTokenId < MAX_U256, Overflow);
      var tokenId := nextTokenId;
      CellWithinSum(balances, to);
      nextTokenId := nextTokenId + 1;
      owners := owners[tokenId := to];
      balances := balances[to := Held(balances, to) + 1];
      return Ok(tokenId);
    }

    method ApproveFor(caller: Address, to: Address, id: nat) returns (r: Result<()>)
      requires Valid()
      modifies this
      ensures Valid()
      ensures match Approve(old(Contents()), caller, to, id)
              case Ok(m) => Contents() == m && r == Ok(())
              case Revert(e) => Contents() == old(Contents()) && r == Revert(e)
    {
      ApproveKeepsLedger(Contents(), caller, to, id);
      var holder := if id in owners then owners[id] else ZERO_ADDRESS;
      var _ :- Require(holder != ZERO_ADDRESS, NoSuchToken);
      var _ :- Require(caller == holder || (holder, caller) in operators, NotAuthorized);
      approvals := approvals[id := to];
      return Ok(());
    }

    method SetOperator(caller: Address, operator: Address, approved: bool)
      requires Valid()
      modifies this
      ensures Valid()
      ensures Contents() == SetApprovalForAll(old(Contents()), caller, operator, approved)
    {
      OperatorKeepsLedger(Contents(), caller, operator, approved);
      if approved {
        operators := operators + {(caller, operator)};
      } else {
        operators := operators - {(caller, operator)};
      }
    }

    method Transfer(caller: Address, from: Address, to: Address, id: nat) returns (r: Result<()>)
      requires Valid()
      modifies this
      ensures Valid()
      ensures match TransferFrom(old(Contents()), caller, from, to, id)
              case Ok(m) => Contents() == m && r == Ok(())
              case Revert(e) => Contents() == old(Contents()) && r == Revert(e)
    {
      TransferKeepsLedger(Contents(), caller, from, to, id);
      TransferNeverFailsOnArithmetic(Contents(), caller, from, to, id);
      var holder := if id in owners then owners[id] else ZERO_ADDRESS;
      var _ :- Require(holder != ZERO_ADDRESS, NoSuchToken);
      var _ :- Require(holder == from, WrongFrom);
      var _ :- Require(to != ZERO_ADDRESS, ZeroRecipient);
      var approved := if id in approvals then approvals[id] else ZERO_ADDRESS;
      var _ :- Require(caller == from || approved == caller || (from, caller) in operators, NotAuthorized);
      approvals := approvals - {id};
      balances := balances[from := Held(balances, from) - 1];
      balances := balances[to := Held(balances, to) + 1];
      owners := owners[id := to];
      return Ok(());
    }
  }
}

/** Escrow solvency: whatever outside accounts do to the auction and to the tokens, every lot of a
    live auction stays in the contract, and only the contract can move it. */
module Escrow {
  import opened Types
  import opened Auction
  import opened Frames
  import Codec
  import Erc20
  import Erc721

  predicate SameLot(a: Auction, b: Auction) {
    a.lotKind == b.lotKind && a.lotToken == b.lotToken && a.lotTokenId == b.lotTokenId && a.lotAmount == b.lotAmount
  }

  function Claim(a: Auction, token: Address): nat {
    if Live(a) && a.lotKind == ERC20 && a.lotToken == token then a.lotAmount else 0
  }

  /** How much of `token` the contract owes to its live auctions. */
  function Owed(auctions: seq<Auction>, token: Address): nat {
    if auctions == [] then 0 else Owed(auctions[..|auctions| - 1], token) + Claim(auctions[|auctions| - 1], token)
  }

  predicate LiveNft(a: Auction) { Live(a) && a.lotKind == ERC721 }

  /** Nobody but `self` can move what `self` holds in this ERC-721. */
  ghost predicate NftSafe(self: Address, n: Erc721.Nft) {
    && Erc721.Ledger(n)
    && (forall x: Address :: (self, x) !in n.operators)
    && (forall id: nat :: Erc721.OwnerAt(n, id) == self ==> Erc721.ApprovedAt(n, id) == ZERO_ADDRESS)
  }

  /** Nobody but `self` can move what `self` holds in this ERC-20. */
  ghost predicate CoinSafe(self: Address, c: Erc20.Coin) {
    Erc20.Bounded(c) && forall x: Address :: Erc20.Allowance(c, self, x) == 0
  }

  ghost predicate TokensSafe(w: World) {
    && (forall t :: t in w.nfts ==> NftSafe(w.self, w.nfts[t]))
    && (forall t :: t in w.coins ==> CoinSafe(w.self, w.coins[t]))
  }

  ghost predicate NftsHeld(w: World, claims: seq<Auction>) {
    && (forall i :: 0 <= i < |claims| && LiveNft(claims[i]) ==>
          && claims[i].lotToken in w.nfts
          && Erc721.OwnerAt(w.nfts[claims[i].lotToken], claims[i].lotTokenId) == w.self)
    && (forall i, j :: 0 <= i < j < |claims| && LiveNft(claims[i]) && LiveNft(claims[j]) ==>
          claims[i].lotToken != claims[j].lotToken || claims[i].lotTokenId != claims[j].lotTokenId)
  }

  ghost predicate CoinsHeld(w: World, claims: seq<Auction>) {
    && (forall t :: t in w.coins ==> Erc20.BalanceOf(w.coins[t], w.self) >= Owed(claims, t))
    && (forall i :: 0 <= i < |claims| && Live(claims[i]) && claims[i].lotKind == ERC20 ==>
        claims[i].lotToken in w.coins)
  }

  /** The tokens `w.self` holds back every lot that `claims` says is live. */
  ghost predicate Backed(w: World, claims: seq<Auction>) {
    w.self != ZERO_ADDRESS && TokensSafe(w) && NftsHeld(w, claims) && CoinsHeld(w, claims)
  }

  ghost predicate SellersOutside(w: World) {
    forall i :: 0 <= i < |w.auctions| ==> w.auctions[i].seller != ZERO_ADDRESS && w.auctions[i].seller != w.self
  }

  ghost predicate Escrowed(w: World) {
    Backed(w, w.auctions) && SellersOutside(w) && !w.entered
  }

  /** A world in which the auction contract has just been deployed: it has approved nothing, and no
      ledger counts more than a word of supply. It may already hold donated tokens. */
  ghost predicate Fresh(w: World) {
    && w.self != ZERO_ADDRESS && !w.entered && w.auctions == [] && w.commitments == {}
    && w.events == [] && w.outbox == [] && TokensSafe(w)
  }

  // ---------------------------------------------------------------- arithmetic of the claims

  lemma {:induction false} OwedAfterWrite(auctions: seq<Auction>, i: nat, a: Auction, token: Address)
    requires i < |auctions|
    ensures Owed(auctions[i := a], token) + Claim(auctions[i], token) == Owed(auctions, token) + Claim(a, token)
  {
    var n := |auctions| - 1;
    if i == n {
      assert auctions[i := a][..n] == auctions[..n];
    } else {
      OwedAfterWrite(auctions[..n], i, a, token);
      assert auctions[i := a][..n] == auctions[..n][i := a];
    }
  }

  lemma {:induction false} OwedCovers(auctions: seq<Auction>, i: nat, token: Address)
    requires i < |auctions|
    ensures Claim(auctions[i], token) <= Owed(auctions, token)
  {
    if i == |auctions| - 1 {
    } else {
      OwedCovers(auctions[..|auctions| - 1], i, token);
    }
  }

  lemma BackingIgnoresOtherFields(w: World, claims: seq<Auction>, i: nat, a: Auction)
    requires Backed(w, claims) && i < |claims| && SameLot(claims[i], a) && Live(claims[i]) == Live(a)
    ensures Backed(w, claims[i := a])
  {
    forall t | t in w.coins
      ensures Owed(claims[i := a], t) == Owed(claims, t)
    {
      OwedAfterWrite(claims, i, a, t);
    }
  }

  // ---------------------------------------------------------------- replacing one ledger

  lemma OtherLedgersKeepBacking(w: World, w1: World, claims: seq<Auction>)
    requires Backed(w, claims) && w1.self == w.self && w1.nfts == w.nfts && w1.coins == w.coins
    ensures Backed(w1, claims)
  {
  }

  lemma SafeWithNft(w: World, token: Address, m: Erc721.Nft)
    requires TokensSafe(w) && NftSafe(w.self, m)
    ensures TokensSafe(WithNft(w, token, m))
  {
  }

  lemma SafeWithCoin(w: World, token: Address, d: Erc20.Coin)
    requires TokensSafe(w) && CoinSafe(w.self, d)
    ensures TokensSafe(WithCoin(w, token, d))
  {
  }

  lemma OneNftLess(w: World, claims: seq<Auction>, i: nat, done: Auction, m: Erc721.Nft)
    requires NftsHeld(w, claims) && i < |claims| && LiveNft(claims[i]) && !Live(done)
    requires forall j: nat :: j != claims[i].lotTokenId ==>
               Erc721.OwnerAt(m, j) == Erc721.OwnerAt(w.nfts[claims[i].lotToken], j)
    ensures NftsHeld(WithNft(w, claims[i].lotToken, m), claims[i := done])
  {
  }

  lemma NftLeaves(w: World, claims: seq<Auction>, i: nat, done: Auction, m: Erc721.Nft)
    requires Backed(w, claims) && i < |claims| && LiveNft(claims[i]) && !Live(done)
    requires NftSafe(w.self, m)
    requires forall j: nat :: j != claims[i].lotTokenId ==>
               Erc721.OwnerAt(m, j) == Erc721.OwnerAt(w.nfts[claims[i].lotToken], j)
    ensures Backed(WithNft(w, claims[i].lotToken, m), claims[i := done])
  {
    SafeWithNft(w, claims[i].lotToken, m);
    OneNftLess(w, claims, i, done, m);
    forall t | t in w.coins ensures Erc20.BalanceOf(w.coins[t], w.self) >= Owed(claims[i := done], t) {
      OwedAfterWrite(claims, i, done, t);
    }
  }

  lemma CoinsStillHeld(w: World, claims: seq<Auction>, i: nat, done: Auction, d: Erc20.Coin)
    requires CoinsHeld(w, claims) && i < |claims| && Live(claims[i]) && !LiveNft(claims[i]) && !Live(done)
    requires Erc20.BalanceOf(d, w.self) >= Erc20.BalanceOf(w.coins[claims[i].lotToken], w.self) - claims[i].lotAmount
    ensures CoinsHeld(WithCoin(w, claims[i].lotToken, d), claims[i := done])
  {
    var w1, rest := WithCoin(w, claims[i].lotToken, d), claims[i := done];
    forall t | t in w1.coins ensures Erc20.BalanceOf(w1.coins[t], w1.self) >= Owed(rest, t) {
      OwedAfterWrite(claims, i, done, t);
    }
  }

  lemma CoinsLeave(w: World, claims: seq<Auction>, i: nat, done: Auction, d: Erc20.Coin)
    requires Backed(w, claims) && i < |claims| && Live(claims[i]) && !LiveNft(claims[i]) && !Live(done)
    requires CoinSafe(w.self, d)
    requires Erc20.BalanceOf(d, w.self) >= Erc20.BalanceOf(w.coins[claims[i].lotToken], w.self) - claims[i].lotAmount
    ensures Backed(WithCoin(w, claims[i].lotToken, d), claims[i := done])
  {
    SafeWithCoin(w, claims[i].lotToken, d);
    CoinsStillHeld(w, claims, i, done, d);
  }

  lemma OwedWithOneMore(claims: seq<Auction>, a: Auction, t: Address)
    ensures Owed(claims + [a], t) == Owed(claims, t) + Claim(a, t)
  {
    assert (claims + [a])[..|claims|] == claims;
  }

  lemma OneNftMore(w: World, claims: seq<Auction>, a: Auction, m: Erc721.Nft)
    requires NftsHeld(w, claims) && LiveNft(a) && a.lotToken in w.nfts
    requires Erc721.OwnerAt(w.nfts[a.lotToken], a.lotTokenId) != w.self && Erc721.OwnerAt(m, a.lotTokenId) == w.self
    requires forall j: nat :: j != a.lotTokenId ==> Erc721.OwnerAt(m, j) == Erc721.OwnerAt(w.nfts[a.lotToken], j)
    ensures NftsHeld(WithNft(w, a.lotToken, m), claims + [a])
  {
  }

  lemma NftAddsNoCoinClaim(w: World, claims: seq<Auction>, a: Auction)
    requires CoinsHeld(w, claims) && LiveNft(a)
    ensures CoinsHeld(w, claims + [a])
  {
    var all := claims + [a];
    forall t | t in w.coins ensures Erc20.BalanceOf(w.coins[t], w.self) >= Owed(all, t) {
      OwedWithOneMore(claims, a, t);
    }
    forall i | 0 <= i < |all| && Live(all[i]) && all[i].lotKind == ERC20 ensures all[i].lotToken in w.coins {
      assert i < |claims| ==> all[i] == claims[i];
    }
  }

  lemma NftArrives(w: World, claims: seq<Auction>, a: Auction, m: Erc721.Nft)
    requires Backed(w, claims) && LiveNft(a) && a.lotToken in w.nfts && NftSafe(w.self, m)
    requires Erc721.OwnerAt(w.nfts[a.lotToken], a.lotTokenId) != w.self && Erc721.OwnerAt(m, a.lotTokenId) == w.self
    requires forall j: nat :: j != a.lotTokenId ==> Erc721.OwnerAt(m, j) == Erc721.OwnerAt(w.nfts[a.lotToken], j)
    ensures Backed(WithNft(w, a.lotToken, m), claims + [a])
  {
    SafeWithNft(w, a.lotToken, m);
    OneNftMore(w, claims, a, m);
    NftAddsNoCoinClaim(w, claims, a);
    assert CoinsHeld(WithNft(w, a.lotToken, m), claims + [a]);
  }

  lemma MoreCoinsHeld(w: World, claims: seq<Auction>, a: Auction, d: Erc20.Coin)
    requires CoinsHeld(w, claims) && Live(a) && !LiveNft(a) && a.lotToken in w.coins
    requires Erc20.BalanceOf(d, w.self) == Erc20.BalanceOf(w.coins[a.lotToken], w.self) + a.lotAmount
    ensures CoinsHeld(WithCoin(w, a.lotToken, d), claims + [a])
  {
    var w1, all := WithCoin(w, a.lotToken, d), claims + [a];
    forall t | t in w1.coins ensures Erc20.BalanceOf(w1.coins[t], w1.self) >= Owed(all, t) {
      OwedWithOneMore(claims, a, t);
    }
    forall i | 0 <= i < |all| && Live(all[i]) && all[i].lotKind == ERC20 ensures all[i].lotToken in w1.coins {
      assert i < |claims| ==> all[i] == claims[i];
    }
  }

  lemma CoinsArrive(w: World, claims: seq<Auction>, a: Auction, d: Erc20.Coin)
    requires Backed(w, claims) && Live(a) && !LiveNft(a) && a.lotToken in w.coins && CoinSafe(w.self, d)
    requires Erc20.BalanceOf(d, w.self) == Erc20.BalanceOf(w.coins[a.lotToken], w.self) + a.lotAmount
    ensures Backed(WithCoin(w, a.lotToken, d), claims + [a])
  {
    SafeWithCoin(w, a.lotToken, d);
    MoreCoinsHeld(w, claims, a, d);
  }

  lemma NftUntouched(w: World, claims: seq<Auction>, token: Address, m: Erc721.Nft)
    requires Backed(w, claims) && token in w.nfts && NftSafe(w.self, m)
    requires forall id: nat :: Erc721.OwnerAt(w.nfts[token], id) == w.self ==> Erc721.OwnerAt(m, id) == w.self
    ensures Backed(WithNft(w, token, m), claims)
  {
    SafeWithNft(w, token, m);
  }

  lemma CoinsUntouched(w: World, claims: seq<Auction>, token: Address, d: Erc20.Coin)
    requires Backed(w, claims) && token in w.coins && CoinSafe(w.self, d)
    requires Erc20.BalanceOf(d, w.self) >= Erc20.BalanceOf(w.coins[token], w.self)
    ensures Backed(WithCoin(w, token, d), claims)
  {
    SafeWithCoin(w, token, d);
  }

  // ---------------------------------------------------------------- the contract's own token calls

  lemma NftCanLeave(self: Address, n: Erc721.Nft, to: Address, id: nat)
    requires NftSafe(self, n) && self != ZERO_ADDRESS && Erc721.OwnerAt(n, id) == self && to != ZERO_ADDRESS
    ensures Erc721.TransferFrom(n, self, self, to, id).Ok?
    ensures var m := Erc721.TransferFrom(n, self, self, to, id).value;
            NftSafe(self, m) && Erc721.OwnerAt(m, id) == to
            && forall j: nat :: j != id ==> Erc721.OwnerAt(m, j) == Erc721.OwnerAt(n, j)
  {
    Erc721.TransferNeverFailsOnArithmetic(n, self, self, to, id);
    Erc721.TransferKeepsLedger(n, self, self, to, id);
    var m := Erc721.TransferFrom(n, self, self, to, id).value;
    forall j: nat
      ensures j != id ==> Erc721.OwnerAt(m, j) == Erc721.OwnerAt(n, j)
      ensures j != id ==> Erc721.ApprovedAt(m, j) == Erc721.ApprovedAt(n, j)
    {
    }
  }

  lemma NftCanArrive(self: Address, n: Erc721.Nft, from: Address, id: nat)
    requires NftSafe(self, n) && self != ZERO_ADDRESS
    requires Erc721.TransferFrom(n, self, from, self, id).Ok?
    ensures var m := Erc721.TransferFrom(n, self, from, self, id).value;
            NftSafe(self, m) && Erc721.OwnerAt(n, id) == from && Erc721.OwnerAt(m, id) == self
            && forall j: nat :: j != id ==> Erc721.OwnerAt(m, j) == Erc721.OwnerAt(n, j)
  {
    Erc721.TransferKeepsLedger(n, self, from, self, id);
    var m := Erc721.TransferFrom(n, self, from, self, id).value;
    forall j: nat
      ensures j != id ==> Erc721.OwnerAt(m, j) == Erc721.OwnerAt(n, j)
      ensures j != id ==> Erc721.ApprovedAt(m, j) == Erc721.ApprovedAt(n, j)
    {
    }
  }

  lemma CoinsCanLeave(self: Address, c: Erc20.Coin, to: Address, amount: U256)
    requires CoinSafe(self, c) && Erc20.BalanceOf(c, self) >= amount
    ensures Erc20.Transfer(c, self, to, amount).Ok?
    ensures var d := Erc20.Transfer(c, self, to, amount).value;
            CoinSafe(self, d) && Erc20.BalanceOf(d, self) >= Erc20.BalanceOf(c, self) - amount
  {
    Erc20.TransferEffect(c, self, to, amount);
    var d := Erc20.Transfer(c, self, to, amount).value;
    forall x: Address ensures Erc20.Allowance(d, self, x) == 0 {
      assert Erc20.Allowance(c, self, x) == 0;
    }
  }

  /** Pulling for the contract, from anyone to anyone else than the contract or to the contract. */
  lemma CoinsCanBePulled(self: Address, c: Erc20.Coin, from: Address, to: Address, amount: U256)
    requires CoinSafe(self, c) && (from != self || to != self)
    ensures Erc20.TransferFrom(c, self, from, to, amount).Ok?
       <==> Erc20.Allowance(c, from, self) >= amount && Erc20.BalanceOf(c, from) >= amount
    ensures Erc20.TransferFrom(c, self, from, to, amount).Ok? ==>
              var d := Erc20.TransferFrom(c, self, from, to, amount).value;
              CoinSafe(self, d)
              && Erc20.BalanceOf(d, self) == Erc20.BalanceOf(c, self)
                  + (if to == self then Erc20.Received(c, amount) else 0)
  {
    Erc20.TransferFromEffect(c, self, from, to, amount);
    assert Erc20.Allowance(c, self, self) == 0;
    var r := Erc20.TransferFrom(c, self, from, to, amount);
    if r.Ok? {
      forall x: Address ensures Erc20.Allowance(r.value, self, x) == 0 {
        assert Erc20.Allowance(c, self, x) == 0;
      }
    }
  }

  /** The lot leg cannot fail: a backed lot can always be sent to any nonzero address, and what
      remains backs the remaining claims. */
  lemma ReleaseSucceeds(w: World, claims: seq<Auction>, i: nat, a: Auction, to: Address, done: Auction)
    requires Backed(w, claims) && i < |claims| && Live(claims[i]) && SameLot(claims[i], a)
    requires to != ZERO_ADDRESS && !Live(done)
    ensures ReleaseLot(w, i, a, to).Ok?
    ensures Backed(ReleaseLot(w, i, a, to).value, claims[i := done])
  {
    OwedCovers(claims, i, a.lotToken);
    if a.lotKind == ERC721 {
      NftCanLeave(w.self, w.nfts[a.lotToken], to, a.lotTokenId);
      var m := Erc721.TransferFrom(w.nfts[a.lotToken], w.self, w.self, to, a.lotTokenId).value;
      NftLeaves(w, claims, i, done, m);
      assert ReleaseLot(w, i, a, to) == Ok(Emit(WithNft(w, a.lotToken, m), LotReleased(i, to)));
      OtherLedgersKeepBacking(WithNft(w, a.lotToken, m), ReleaseLot(w, i, a, to).value, claims[i := done]);
    } else {
      CoinsCanLeave(w.self, w.coins[a.lotToken], to, a.lotAmount);
      var d := Erc20.Transfer(w.coins[a.lotToken], w.self, to, a.lotAmount).value;
      CoinsLeave(w, claims, i, done, d);
      assert ReleaseLot(w, i, a, to) == Ok(Emit(WithCoin(w, a.lotToken, d), LotReleased(i, to)));
      OtherLedgersKeepBacking(WithCoin(w, a.lotToken, d), ReleaseLot(w, i, a, to).value, claims[i := done]);
    }
  }

  /** The payment leg succeeds exactly when the payer covers the price, and takes nothing from escrow. */
  lemma PaymentKeepsBacking(w: World, claims: seq<Auction>, token: Address, from: Address, to: Address, amount: U256)
    requires Backed(w, claims) && to != w.self
    ensures PullCoins(w, token, from, to, amount).Ok?
       <==> token in w.coins && Erc20.Allowance(w.coins[token], from, w.self) >= amount
            && Erc20.BalanceOf(w.coins[token], from) >= amount
    ensures PullCoins(w, token, from, to, amount).Ok? ==>
              Backed(PullCoins(w, token, from, to, amount).value, claims)
  {
    if token in w.coins {
      CoinsCanBePulled(w.self, w.coins[token], from, to, amount);
      var r := Erc20.TransferFrom(w.coins[token], w.self, from, to, amount);
      if r.Ok? {
        CoinsUntouched(w, claims, token, r.value);
        assert PullCoins(w, token, from, to, amount) == Ok(WithCoin(w, token, r.value));
      }
    }
  }

  /** A successful pull backs the old claims and the new lot, for exactly the amount recorded. */
  lemma PullBacksNewLot(w: World, claims: seq<Auction>, caller: Address, a: Auction, amount: U256)
    requires Backed(w, claims) && caller != w.self && caller != ZERO_ADDRESS && Live(a)
    requires PullLot(w, caller, a.lotKind, a.lotToken, a.lotTokenId, amount).Ok?
    requires PullLot(w, caller, a.lotKind, a.lotToken, a.lotTokenId, amount).value.1 == a.lotAmount
    ensures Backed(PullLot(w, caller, a.lotKind, a.lotToken, a.lotTokenId, amount).value.0, claims + [a])
  {
    var w1 := PullLot(w, caller, a.lotKind, a.lotToken, a.lotTokenId, amount).value.0;
    if a.lotKind == ERC721 {
      NftCanArrive(w.self, w.nfts[a.lotToken], caller, a.lotTokenId);
      NftArrives(w, claims, a, w1.nfts[a.lotToken]);
      assert w1 == WithNft(w, a.lotToken, w1.nfts[a.lotToken]);
    } else {
      CoinsCanBePulled(w.self, w.coins[a.lotToken], caller, w.self, amount);
      CoinsArrive(w, claims, a, w1.coins[a.lotToken]);
      assert w1 == WithCoin(w, a.lotToken, w1.coins[a.lotToken]);
    }
  }

  // ---------------------------------------------------------------- token calls by anyone else

  /** One NFT ledger after a call by an outsider, id by id. */
  lemma OutsiderLeavesId(self: Address, n: Erc721.Nft, caller: Address, op: Erc721.Op, id: nat)
    requires NftSafe(self, n) && self != ZERO_ADDRESS && caller != self && caller != ZERO_ADDRESS
    requires Erc721.Do(n, caller, op).Ok?
    ensures var m := Erc721.Do(n, caller, op).value;
            && (Erc721.OwnerAt(n, id) == self ==> Erc721.OwnerAt(m, id) == self)
            && (Erc721.OwnerAt(m, id) == self ==> Erc721.ApprovedAt(m, id) == ZERO_ADDRESS)
  {
    assert (self, caller) !in n.operators;
    var m := Erc721.Do(n, caller, op).value;
    match op {
      case Minting(to) =>
        assert Erc721.OwnerAt(n, n.nextTokenId) == ZERO_ADDRESS;
        assert Erc721.ApprovedAt(m, id) == Erc721.ApprovedAt(n, id);
        assert id != n.nextTokenId ==> Erc721.OwnerAt(m, id) == Erc721.OwnerAt(n, id);
      case Approving(to, j) =>
        assert Erc721.OwnerAt(m, id) == Erc721.OwnerAt(n, id);
        assert Erc721.OwnerAt(n, j) != self;
      case SettingOperator(operator, approved) =>
        assert Erc721.OwnerAt(m, id) == Erc721.OwnerAt(n, id) && Erc721.ApprovedAt(m, id) == Erc721.ApprovedAt(n, id);
      case Moving(from, to, j) =>
        assert Erc721.OwnerAt(n, j) == from != self;
        assert id != j ==> Erc721.OwnerAt(m, id) == Erc721.OwnerAt(n, id);
    }
  }

  lemma OutsiderCannotMoveNft(self: Address, n: Erc721.Nft, caller: Address, op: Erc721.Op)
    requires NftSafe(self, n) && self != ZERO_ADDRESS && caller != self && caller != ZERO_ADDRESS
    requires Erc721.Do(n, caller, op).Ok?
    ensures var m := Erc721.Do(n, caller, op).value;
            NftSafe(self, m) && forall id: nat :: Erc721.OwnerAt(n, id) == self ==> Erc721.OwnerAt(m, id) == self
  {
    var m := Erc721.Do(n, caller, op).value;
    forall id: nat
      ensures Erc721.OwnerAt(n, id) == self ==> Erc721.OwnerAt(m, id) == self
      ensures Erc721.OwnerAt(m, id) == self ==> Erc721.ApprovedAt(m, id) == ZERO_ADDRESS
    {
      OutsiderLeavesId(self, n, caller, op, id);
    }
    Erc721.DoKeepsLedger(n, caller, op);
  }

  lemma OutsiderCannotMoveCoins(self: Address, c: Erc20.Coin, caller: Address, op: Erc20.Op)
    requires CoinSafe(self, c) && caller != self
    ensures Erc20.Do(c, caller, op).Ok? ==>
              var d := Erc20.Do(c, caller, op).value;
              CoinSafe(self, d) && Erc20.BalanceOf(d, self) >= Erc20.BalanceOf(c, self)
  {
    var r := Erc20.Do(c, caller, op);
    if r.Ok? {
      match op {
        case Minting(to, amount) =>
          Erc20.MintEffect(c, to, amount);
        case Approving(spender, amount) =>
        case Sending(to, amount) =>
          Erc20.TransferEffect(c, caller, to, amount);
        case SendingFrom(from, to, amount) =>
          Erc20.TransferFromEffect(c, caller, from, to, amount);
          assert Erc20.Allowance(c, self, caller) == 0;
      }
      forall x: Address ensures Erc20.Allowance(r.value, self, x) == 0 {
        assert Erc20.Allowance(c, self, x) == 0;
      }
    }
  }

  /** `w1` took nothing out of the contract: every NFT it held is still there, and no balance of it
      in any ERC-20 is lower. */
  ghost predicate NothingTaken(w: World, w1: World) {
    && (forall t, id: nat :: t in w.nfts && Erc721.OwnerAt(w.nfts[t], id) == w.self ==>
          t in w1.nfts && Erc721.OwnerAt(w1.nfts[t], id) == w.self)
    && (forall t :: t in w.coins ==>
          t in w1.coins && Erc20.BalanceOf(w1.coins[t], w.self) >= Erc20.BalanceOf(w.coins[t], w.self))
  }

  /** Custody: no token call by an outside account moves an NFT the contract holds, lowers the
      contract's balance in any ERC-20, or creates an approval that later could. */
  lemma OutsiderCannotMoveEscrow(w: World, tx: Tx)
    requires TokensSafe(w) && w.self != ZERO_ADDRESS && Outside(w, tx) && (tx.call.OnNft? || tx.call.OnCoin?)
    requires Apply(w, tx).Ok?
    ensures TokensSafe(Apply(w, tx).value) && NothingTaken(w, Apply(w, tx).value)
  {
    match tx.call {
      case OnNft(token, op) => OutsiderCannotMoveNft(w.self, w.nfts[token], tx.caller, op);
      case OnCoin(token, op) => OutsiderCannotMoveCoins(w.self, w.coins[token], tx.caller, op);
    }
  }

  // ---------------------------------------------------------------- every step, every run

  lemma CreateKeepsEscrow(w: World, caller: Address, now: U64, c: Call)
    requires Escrowed(w) && c.Create? && caller != w.self && caller != ZERO_ADDRESS
    ensures var r := CreateAuction(w, caller, now, c.lot, c.kind, c.lotToken, c.lotTokenId, c.lotAmount,
                                   c.payToken, c.deadline, c.reservePrice);
            r.Ok? ==> Escrowed(r.value)
  {
    var r := CreateAuction(w, caller, now, c.lot, c.kind, c.lotToken, c.lotTokenId, c.lotAmount,
                           c.payToken, c.deadline, c.reservePrice);
    if r.Ok? {
      var pulled := PullLot(w, caller, c.kind, c.lotToken, c.lotTokenId, c.lotAmount).value;
      var a := Auction(caller, c.lot, c.kind, c.lotToken, c.lotTokenId, pulled.1, c.payToken, c.deadline,
                       c.reservePrice, Open, ZERO_ADDRESS, 0, 0);
      PullBacksNewLot(w, w.auctions, caller, a, c.lotAmount);
      PullLotFrame(w, caller, c.kind, c.lotToken, c.lotTokenId, c.lotAmount);
      assert r.value.auctions == w.auctions + [a];
      OtherLedgersKeepBacking(pulled.0, r.value, w.auctions + [a]);
    }
  }

  lemma EntryKeepsEscrow(w: World, w1: World, id: nat, a: Auction)
    requires Escrowed(w) && id < |w.auctions| && SameLot(w.auctions[id], a) && Live(w.auctions[id]) == Live(a)
    requires a.seller == w.auctions[id].seller
    requires w1 == w.(auctions := w.auctions[id := a], commitments := w1.commitments, events := w1.events,
             outbox := w1.outbox)
    ensures Escrowed(w1)
  {
    BackingIgnoresOtherFields(w, w.auctions, id, a);
    OtherLedgersKeepBacking(w, w1, w1.auctions);
  }

  /** Sending a live lot back to its seller always succeeds and leaves the rest in escrow. */
  lemma ReturnKeepsEscrow(w: World, id: nat)
    requires Escrowed(w) && id < |w.auctions| && Live(w.auctions[id])
    ensures SendHome(w, id).Ok? && Escrowed(SendHome(w, id).value)
  {
    var a := w.auctions[id];
    var done := a.(phase := Cancelled);
    var w1 := SetAuction(w, id, done);
    OtherLedgersKeepBacking(w, w1, w.auctions);
    ReleaseSucceeds(w1, w.auctions, id, a, a.seller, done);
    ReleaseLotFrame(w1, id, a, a.seller);
    var w2 := ReleaseLot(w1, id, a, a.seller).value;
    OtherLedgersKeepBacking(w2, Emit(w2, AuctionCancelled(id)), w.auctions[id := done]);
  }

  /** Cancelling by the seller always gets the lot out. */
  lemma CancelKeepsEscrow(w: World, caller: Address, id: U256)
    requires Escrowed(w)
    ensures CancelAuction(w, caller, id).Ok?
       <==> && id < |w.auctions| && caller == w.auctions[id].seller
            && w.auctions[id].phase == Open && w.auctions[id].bidCount == 0
    ensures CancelAuction(w, caller, id).Ok? ==> Escrowed(CancelAuction(w, caller, id).value)
  {
    if id < |w.auctions| && w.auctions[id].phase == Open {
      ReturnKeepsEscrow(w, id);
    }
  }

  ghost predicate Funded(w: World, token: Address, payer: Address, amount: U256) {
    token in w.coins
    && Erc20.Allowance(w.coins[token], payer, w.self) >= amount
    && Erc20.BalanceOf(w.coins[token], payer) >= amount
  }

  lemma SaleKeepsEscrow(w: World, id: nat, winner: Address, price: U256)
    requires Escrowed(w) && winner != ZERO_ADDRESS && id < |w.auctions| && Live(w.auctions[id])
    ensures Sell(w, id, winner, price).Ok? <==> Funded(w, w.auctions[id].payToken, winner, price)
    ensures Sell(w, id, winner, price).Ok? ==> Escrowed(Sell(w, id, winner, price).value)
  {
    var sold := w.auctions[id].(phase := Settled, winner := winner, clearingPrice := price);
    var w1 := SetAuction(w, id, sold);
    OtherLedgersKeepBacking(w, w1, w.auctions);
    PaymentKeepsBacking(w1, w.auctions, sold.payToken, winner, sold.seller, price);
    var paid := PullCoins(w1, sold.payToken, winner, sold.seller, price);
    if paid.Ok? {
      PullCoinsFrame(w1, sold.payToken, winner, sold.seller, price);
      ReleaseSucceeds(paid.value, w.auctions, id, sold, winner, sold);
      ReleaseLotFrame(paid.value, id, sold, winner);
      var w2 := ReleaseLot(paid.value, id, sold, winner).value;
      OtherLedgersKeepBacking(w2, Emit(w2, AuctionSettled(id, winner, price)), w.auctions[id := sold]);
    }
  }

  /** What settlement needs once a result is authenticated: a closing auction, and for a sale a price
      at the reserve and a payer who covers it. The lot leg never decides. */
  lemma ApplyResultKeepsEscrow(w: World, result: Codec.CloseResult)
    requires Escrowed(w)
    ensures ApplyResult(w, result).Ok?
       <==> var id := result.auctionId;
            && id < |w.auctions| && w.auctions[id].phase == Closing
            && (result.winner != ZERO_ADDRESS ==>
                  result.clearingPrice >= w.auctions[id].reservePrice
                  && Funded(w, w.auctions[id].payToken, result.winner, result.clearingPrice))
    ensures ApplyResult(w, result).Ok? ==> Escrowed(ApplyResult(w, result).value)
  {
    var id := result.auctionId;
    if id < |w.auctions| && w.auctions[id].phase == Closing {
      if result.winner == ZERO_ADDRESS {
        ReturnKeepsEscrow(w, id);
      } else if result.clearingPrice >= w.auctions[id].reservePrice {
        SaleKeepsEscrow(w, id, result.winner, result.clearingPrice);
      }
    }
  }

  lemma TokenCallKeepsEscrow(w: World, tx: Tx)
    requires Escrowed(w) && Outside(w, tx) && (tx.call.OnNft? || tx.call.OnCoin?) && Apply(w, tx).Ok?
    ensures Escrowed(Apply(w, tx).value)
  {
    match tx.call {
      case OnNft(token, op) =>
        OutsiderCannotMoveNft(w.self, w.nfts[token], tx.caller, op);
        NftUntouched(w, w.auctions, token, Erc721.Do(w.nfts[token], tx.caller, op).value);
      case OnCoin(token, op) =>
        OutsiderCannotMoveCoins(w.self, w.coins[token], tx.caller, op);
        CoinsUntouched(w, w.auctions, token, Erc20.Do(w.coins[token], tx.caller, op).value);
    }
  }

  lemma SettleKeepsEscrow(w: World, r: Codec.ActionResult, sig: Bytes)
    requires Escrowed(w) && Settle(w, r, sig).Ok?
    ensures Escrowed(Settle(w, r, sig).value)
  {
    ApplyResultKeepsEscrow(w, Codec.UnpackResult(r.data).value);
  }

  lemma AuctionCallKeepsEscrow(w: World, tx: Tx)
    requires Escrowed(w) && Outside(w, tx) && !tx.call.OnNft? && !tx.call.OnCoin? && Apply(w, tx).Ok?
    ensures Escrowed(Apply(w, tx).value)
  {
    var w1 := Apply(w, tx).value;
    match tx.call {
      case Create(_, _, _, _, _, _, _, _) => CreateKeepsEscrow(w, tx.caller, tx.now, tx.call);
      case Bid(id, _) => EntryKeepsEscrow(w, w1, id, w1.auctions[id]);
      case Close(id) => EntryKeepsEscrow(w, w1, id, w1.auctions[id]);
      case Cancel(id) => CancelKeepsEscrow(w, tx.caller, id);
      case SettleWith(r, sig) => SettleKeepsEscrow(w, r, sig);
      case SetTee(_) => OtherLedgersKeepBacking(w, w1, w.auctions);
    }
  }

  lemma StepKeepsEscrow(w: World, tx: Tx)
    requires Escrowed(w) && Outside(w, tx)
    ensures Escrowed(Step(w, tx))
  {
    if Apply(w, tx).Ok? {
      if tx.call.OnNft? || tx.call.OnCoin? {
        TokenCallKeepsEscrow(w, tx);
      } else {
        AuctionCallKeepsEscrow(w, tx);
      }
    }
  }

  lemma StepKeepsIdentity(w: World, tx: Tx)
    ensures Step(w, tx).self == w.self && Step(w, tx).owner == w.owner && Step(w, tx).chain == w.chain
  {
    ApplyHasShape(w, tx);
  }

  lemma {:induction false} RunKeepsEscrow(w: World, txs: seq<Tx>)
    requires Escrowed(w) && OutsideRun(w, txs)
    ensures Escrowed(Run(w, txs)) && Run(w, txs).self == w.self && Run(w, txs).chain == w.chain
  {
    if txs == [] {
    } else {
      var n := |txs| - 1;
      RunKeepsEscrow(w, txs[..n]);
      var mid := Run(w, txs[..n]);
      assert txs[n] in txs;
      StepKeepsEscrow(mid, txs[n]);
      StepKeepsIdentity(mid, txs[n]);
    }
  }

  /** Main result: in every state any run of outside transactions reaches from deployment, the
      contract's holdings cover every live lot, no two live auctions share an NFT, and no approval,
      operator or allowance of the contract's own holdings exists. */
  lemma {:induction false} EscrowHoldsInEveryRun(w: World, txs: seq<Tx>)
    requires Fresh(w) && OutsideRun(w, txs)
    ensures var w1 := Run(w, txs);
            && CoinsHeld(w1, w1.auctions) && NftsHeld(w1, w1.auctions) && TokensSafe(w1)
            && w1.self == w.self && !w1.entered
  {
    RunKeepsEscrow(w, txs);
  }
}

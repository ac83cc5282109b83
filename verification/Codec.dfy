/** The flat four-word result the TEE packs (go/pkg/types/types.go) and `settle` decodes, and the
    digest `settle` rebuilds and the signer it recovers. */
module Codec {
  import opened Types

  type Bytes32 = b: Bytes | |b| == 32 witness seq(32, _ => 0)

  // ---------------------------------------------------------------- big-endian words

  function Pow256(k: nat): nat { if k == 0 then 1 else 256 * Pow256(k - 1) }

  /** The low `k` bytes of `n`, most significant first. */
  function Word(n: nat, k: nat): (w: Bytes)
    ensures |w| == k
  {
    if k == 0 then [] else Word(n / 256, k - 1) + [n % 256]
  }

  function Value(s: Bytes): nat {
    if s == [] then 0 else 256 * Value(s[..|s| - 1]) + s[|s| - 1]
  }

  lemma {:induction false} ValueOfWord(n: nat, k: nat)
    requires n < Pow256(k)
    ensures Value(Word(n, k)) == n
  {
    if k == 0 {
    } else {
      ValueOfWord(n / 256, k - 1);
      assert Word(n, k)[..k - 1] == Word(n / 256, k - 1);
    }
  }

  lemma {:induction false} WordOfValue(s: Bytes)
    ensures Word(Value(s), |s|) == s
    ensures Value(s) < Pow256(|s|)
  {
    if s == [] {
    } else {
      WordOfValue(s[..|s| - 1]);
    }
  }

  lemma FourMoreBytes(k: nat)
    ensures Pow256(k + 4) == 0x1_0000_0000 * Pow256(k)
  {
    assert Pow256(k + 2) == 0x1_0000 * Pow256(k);
  }

  lemma WidthsAsPowers()
    ensures Pow256(20) == TWO_160 && Pow256(32) == TWO_256
  {
    FourMoreBytes(0);
    FourMoreBytes(4);
    FourMoreBytes(8);
    FourMoreBytes(12);
    FourMoreBytes(16);
    FourMoreBytes(20);
    FourMoreBytes(24);
    FourMoreBytes(28);
  }

  lemma WordRoundTrip(n: U256)
    ensures Value(Word(n, 32)) == n
  {
    WidthsAsPowers();
    ValueOfWord(n, 32);
  }

  // ---------------------------------------------------------------- the close result

  datatype CloseResult = CloseResult(contractAddr: Address, auctionId: U256, winner: Address, clearingPrice: U256)

  function PackResult(r: CloseResult): Bytes {
    Word(r.contractAddr, 32) + Word(r.auctionId, 32) + Word(r.winner, 32) + Word(r.clearingPrice, 32)
  }

  /** `abi.decode(data, (address, uint256, address, uint256))`: data too short and an address word
      with any of its upper twelve bytes set revert; bytes beyond the four words are ignored. */
  function UnpackResult(data: Bytes): Result<CloseResult> {
    var _ :- Require(|data| >= 128, BadResultData);
    var _ :- Require(Value(data[..32]) < TWO_160 && Value(data[64..96]) < TWO_160, BadResultData);
    var _ :- Require(Value(data[32..64]) < TWO_256 && Value(data[96..128]) < TWO_256, BadResultData);
    Ok(CloseResult(Value(data[..32]), Value(data[32..64]), Value(data[64..96]), Value(data[96..128])))
  }

  lemma UnpackInvertsPack(r: CloseResult)
    ensures UnpackResult(PackResult(r)) == Ok(r)
  {
    var data := PackResult(r);
    assert data[..32] == Word(r.contractAddr, 32);
    assert data[32..64] == Word(r.auctionId, 32);
    assert data[64..96] == Word(r.winner, 32);
    assert data[96..128] == Word(r.clearingPrice, 32);
    WordRoundTrip(r.contractAddr);
    WordRoundTrip(r.auctionId);
    WordRoundTrip(r.winner);
    WordRoundTrip(r.clearingPrice);
  }

  lemma WordFits(s: Bytes)
    requires |s| == 32
    ensures Value(s) < TWO_256 && Word(Value(s), 32) == s
  {
    WidthsAsPowers();
    WordOfValue(s);
  }

  lemma {:induction false} FourWords(data: Bytes)
    requires |data| >= 128
    ensures data[..128] == data[..32] + data[32..64] + data[64..96] + data[96..128]
  {
  }

  /** Exactly the four-word byte strings with clean address words decode, and re-packing what was
      decoded gives back the bytes read: a signed byte string has one meaning. */
  lemma PackInvertsUnpack(data: Bytes)
    ensures UnpackResult(data).Ok? ==> |data| >= 128 && PackResult(UnpackResult(data).value) == data[..128]
    ensures UnpackResult(data).Ok?
       <==> |data| >= 128 && Value(data[..32]) < TWO_160 && Value(data[64..96]) < TWO_160
  {
    if |data| >= 128 {
      WordFits(data[..32]);
      WordFits(data[32..64]);
      WordFits(data[64..96]);
      WordFits(data[96..128]);
      FourWords(data);
    }
  }

  function Ascii(s: string): Bytes {
    seq(|s|, i requires 0 <= i < |s| => s[i] as int % 256)
  }

  /** What the TEE returns for an accepted PLACE_BID: the JSON of PlaceBidResponse. */
  const ACKNOWLEDGEMENT: Bytes := Ascii("{\"accepted\":true}")

  /** A signed bid acknowledgement (or an error, whose data is empty) can never settle anything. */
  lemma AcknowledgementNeverDecodes()
    ensures |ACKNOWLEDGEMENT| == 17
    ensures UnpackResult(ACKNOWLEDGEMENT) == Revert(BadResultData) && UnpackResult([]) == Revert(BadResultData)
  {
  }

  // ---------------------------------------------------------------- the digest `settle` rebuilds

  datatype ActionResult = ActionResult(data: Bytes, actionId: Bytes32, submissionTag: Bytes, status: Byte)

  type Hash = Bytes -> Bytes32

  const RESULT_PREFIX: Bytes := Ascii("TEE_ACTION_RESULT") + seq(15, _ => 0)
  const ETH_PREFIX: Bytes := [25] + Ascii("Ethereum Signed Message:") + [10] + Ascii("32")

  function ResultPreimage(keccak: Hash, r: ActionResult): Bytes {
    keccak(r.data) + r.actionId + keccak(r.submissionTag) + [r.status]
  }

  function PayloadPreimage(keccak: Hash, chainId: U256, r: ActionResult): Bytes {
    RESULT_PREFIX + Word(chainId, 32) + keccak(ResultPreimage(keccak, r))
  }

  function SignedPreimage(keccak: Hash, chainId: U256, r: ActionResult): Bytes {
    ETH_PREFIX + keccak(PayloadPreimage(keccak, chainId, r))
  }

  function Digest(keccak: Hash, chainId: U256, r: ActionResult): Bytes32 {
    keccak(SignedPreimage(keccak, chainId, r))
  }

  // ---------------------------------------------------------------- whose signature it is

  /** What settlement takes from the chain it runs on: its id and the two precompiled functions. */
  datatype Chain = Chain(chainId: U256, keccak: Hash, ecrecover: (Bytes32, Byte, Bytes32, Bytes32) -> Address)

  /** `_recover`: 65 bytes r, s and v, where v may be given as 0 or 1. */
  function Recover(chain: Chain, digest: Bytes32, sig: Bytes): Result<Address> {
    var _ :- Require(|sig| == 65, BadSignatureLength);
    var v := if sig[64] < 27 then sig[64] + 27 else sig[64];
    var _ :- Require(v == 27 || v == 28, BadSignatureV);
    var signer := chain.ecrecover(digest, v, sig[..32], sig[32..64]);
    var _ :- Require(signer != ZERO_ADDRESS, InvalidSignature);
    Ok(signer)
  }

  function SignerOf(chain: Chain, r: ActionResult, sig: Bytes): Result<Address> {
    Recover(chain, Digest(chain.keccak, chain.chainId, r), sig)
  }

  predicate Collide(keccak: Hash, a: Bytes, b: Bytes) { a != b && keccak(a) == keccak(b) }

  /** Some pair of the inputs hashed for the two results, position by position, collides. */
  predicate Colliding(keccak: Hash, chain1: U256, r1: ActionResult, chain2: U256, r2: ActionResult) {
    || Collide(keccak, r1.data, r2.data)
    || Collide(keccak, r1.submissionTag, r2.submissionTag)
    || Collide(keccak, ResultPreimage(keccak, r1), ResultPreimage(keccak, r2))
    || Collide(keccak, PayloadPreimage(keccak, chain1, r1), PayloadPreimage(keccak, chain2, r2))
    || Collide(keccak, SignedPreimage(keccak, chain1, r1), SignedPreimage(keccak, chain2, r2))
  }

  lemma ResultPreimageParts(keccak: Hash, r: ActionResult)
    ensures var p := ResultPreimage(keccak, r);
            |p| == 97 && p[..32] == keccak(r.data) && p[32..64] == r.actionId
            && p[64..96] == keccak(r.submissionTag) && p[96] == r.status
  {
  }

  lemma PayloadPreimageParts(keccak: Hash, chainId: U256, r: ActionResult)
    ensures var p := PayloadPreimage(keccak, chainId, r);
            |p| == 96 && p[32..64] == Word(chainId, 32) && p[64..] == keccak(ResultPreimage(keccak, r))
  {
  }

  /** The packing is injective: a digest of one (chain, result) pair is the digest of another only
      through a concrete pair of colliding keccak inputs, one of the five named. */
  lemma DigestBinds(keccak: Hash, chain1: U256, r1: ActionResult, chain2: U256, r2: ActionResult)
    requires Digest(keccak, chain1, r1) == Digest(keccak, chain2, r2)
    ensures (chain1 == chain2 && r1 == r2) || Colliding(keccak, chain1, r1, chain2, r2)
  {
    var s1, s2 := SignedPreimage(keccak, chain1, r1), SignedPreimage(keccak, chain2, r2);
    var p1, p2 := PayloadPreimage(keccak, chain1, r1), PayloadPreimage(keccak, chain2, r2);
    var q1, q2 := ResultPreimage(keccak, r1), ResultPreimage(keccak, r2);
    if s1 == s2 {
      assert s1[|ETH_PREFIX|..] == keccak(p1) && s2[|ETH_PREFIX|..] == keccak(p2);
      PayloadPreimageParts(keccak, chain1, r1);
      PayloadPreimageParts(keccak, chain2, r2);
      if p1 == p2 {
        WordRoundTrip(chain1);
        WordRoundTrip(chain2);
        assert keccak(q1) == keccak(q2);
        ResultPreimageParts(keccak, r1);
        ResultPreimageParts(keccak, r2);
      }
    }
  }

  /** A key that signed the digests of `signed`, each a chain and a result. */
  type Signed = set<(U256, ActionResult)>

  /** Nobody forges: what recovers to `key` is a digest that key signed, of one pair or another. */
  ghost predicate Unforged(chain: Chain, key: Address, signed: Signed, r: ActionResult, sig: Bytes) {
    SignerOf(chain, r, sig) == Ok(key) ==>
      exists s :: s in signed && Digest(chain.keccak, s.0, s.1) == Digest(chain.keccak, chain.chainId, r)
  }

  /** The inputs hashed for a presented result that was not signed collide with those of no signed one. */
  ghost predicate NoCollision(chain: Chain, signed: Signed, r: ActionResult) {
    (chain.chainId, r) !in signed ==>
      forall s :: s in signed ==> !Colliding(chain.keccak, s.0, s.1, chain.chainId, r)
  }

  /** All that is assumed about a signature presented to the contract. */
  ghost predicate Reliable(chain: Chain, key: Address, signed: Signed, r: ActionResult, sig: Bytes) {
    Unforged(chain, key, signed, r, sig) && NoCollision(chain, signed, r)
  }

  /** Then what recovers to `key` is a signature on exactly this result on exactly this chain. */
  lemma RecoveredResultWasSigned(chain: Chain, key: Address, signed: Signed, r: ActionResult, sig: Bytes)
    requires SignerOf(chain, r, sig) == Ok(key) && Reliable(chain, key, signed, r, sig)
    ensures (chain.chainId, r) in signed
  {
    var s :| s in signed && Digest(chain.keccak, s.0, s.1) == Digest(chain.keccak, chain.chainId, r);
    DigestBinds(chain.keccak, s.0, s.1, chain.chainId, r);
  }

  /** Presenting a signed result needs no assumption. */
  lemma SignedIsReliable(chain: Chain, key: Address, signed: Signed, r: ActionResult, sig: Bytes)
    requires (chain.chainId, r) in signed
    ensures Reliable(chain, key, signed, r, sig)
  {
    var s := (chain.chainId, r);
    assert s in signed;
  }
}

/** The bytes themselves, position by position: what the TEE packs, what `settle` decodes, and what is
    hashed and signed. Written from the encodings alone, and shown to be what `Codec` computes. */
module Wire {
  import opened Types
  import Codec

  // ---------------------------------------------------------------- one 32-byte word

  lemma {:induction false} PowerIsPositive(k: nat)
    ensures Codec.Pow256(k) > 0
  {
    if k == 0 {
    } else {
      PowerIsPositive(k - 1);
    }
  }

  /** Byte `i` of the 32-byte big-endian word of `n`. */
  function ByteAt(n: nat, i: nat): Byte
    requires i < 32
  {
    PowerIsPositive(31 - i);
    (n / Codec.Pow256(31 - i)) % 256
  }

  lemma Scale(d: int, e: int)
    requires d > 0
    ensures e >= 1 ==> d * e >= d
    ensures e <= -1 ==> d * e <= -d
  {
  }

  lemma QuotientIsUnique(n: nat, d: nat, q: nat, r: nat)
    requires d > 0 && n == d * q + r && r < d
    ensures n / d == q
  {
    var e := n / d - q;
    assert n == d * (n / d) + n % d;
    assert d * e == d * (n / d) - d * q;
    Scale(d, e);
  }

  lemma DivideTwice(n: nat, p: nat)
    requires p > 0
    ensures 256 * p > 0 && (n / 256) / p == n / (256 * p)
  {
    var q, r := n / 256, n % 256;
    var a, b := q / p, q % p;
    assert q == p * a + b;
    assert n == 256 * q + r;
    assert n == (256 * p) * a + (256 * b + r) by {
      assert 256 * q == 256 * (p * a) + 256 * b;
      assert 256 * (p * a) == (256 * p) * a;
    }
    assert 256 * b + r < 256 * p;
    QuotientIsUnique(n, 256 * p, a, 256 * b + r);
  }

  lemma {:induction false} WordBytes(n: nat, k: nat, i: nat)
    requires i < k
    ensures Codec.Pow256(k - 1 - i) > 0 && Codec.Word(n, k)[i] == (n / Codec.Pow256(k - 1 - i)) % 256
  {
    PowerIsPositive(k - 1 - i);
    if i == k - 1 {
    } else {
      WordBytes(n / 256, k - 1, i);
      DivideTwice(n, Codec.Pow256(k - 2 - i));
    }
  }

  lemma WordIsBigEndian(n: nat)
    ensures forall i :: 0 <= i < 32 ==> Codec.Word(n, 32)[i] == ByteAt(n, i)
  {
    forall i | 0 <= i < 32 ensures Codec.Word(n, 32)[i] == ByteAt(n, i) {
      WordBytes(n, 32, i);
    }
  }

  function BigEndian(n: nat): (w: Bytes)
    ensures |w| == 32
  {
    seq(32, i requires 0 <= i < 32 => ByteAt(n, i))
  }

  lemma WordIs(n: nat)
    ensures Codec.Word(n, 32) == BigEndian(n)
  {
    WordIsBigEndian(n);
  }

  // ---------------------------------------------------------------- the result, packed and decoded

  /** The number whose word byte `j` of the packed result belongs to. */
  function FieldAt(r: Codec.CloseResult, j: nat): nat {
    if j < 32 then r.contractAddr else if j < 64 then r.auctionId else if j < 96 then r.winner else r.clearingPrice
  }

  lemma ByteOfFour(a: Bytes, b: Bytes, c: Bytes, d: Bytes, j: nat)
    requires |a| == |b| == |c| == |d| == 32 && j < 128
    ensures (a + b + c + d)[j] == (if j < 32 then a else if j < 64 then b else if j < 96 then c else d)[j % 32]
  {
  }

  /** The packing is the four fields in this order, each big-endian in 32 bytes. */
  lemma PackedByteByByte(r: Codec.CloseResult)
    ensures |Codec.PackResult(r)| == 128
    ensures forall j :: 0 <= j < 128 ==> Codec.PackResult(r)[j] == ByteAt(FieldAt(r, j), j % 32)
  {
    forall j | 0 <= j < 128 ensures Codec.PackResult(r)[j] == ByteAt(FieldAt(r, j), j % 32) {
      ByteOfFour(Codec.Word(r.contractAddr, 32), Codec.Word(r.auctionId, 32), Codec.Word(r.winner, 32),
                 Codec.Word(r.clearingPrice, 32), j);
      WordIsBigEndian(FieldAt(r, j));
    }
  }

  lemma Redistribute(x: nat, p: nat, y: nat, z: nat)
    ensures 256 * (x * p + y) + z == x * (256 * p) + (256 * y + z)
  {
    assert x * (256 * p) == 256 * (x * p);
  }

  lemma {:induction false} ValueSplits(a: Bytes, b: Bytes)
    ensures Codec.Value(a + b) == Codec.Value(a) * Codec.Pow256(|b|) + Codec.Value(b)
  {
    if b == [] {
      assert a + b == a;
    } else {
      var n := |b| - 1;
      ValueSplits(a, b[..n]);
      assert (a + b)[..|a + b| - 1] == a + b[..n];
      Redistribute(Codec.Value(a), Codec.Pow256(n), Codec.Value(b[..n]), b[n]);
    }
  }

  lemma {:induction false} ZeroValue(s: Bytes)
    ensures Codec.Value(s) == 0 <==> forall i :: 0 <= i < |s| ==> s[i] == 0
  {
    if s == [] {
    } else {
      ZeroValue(s[..|s| - 1]);
    }
  }

  /** A word holds an address exactly if its first twelve bytes are zero. */
  lemma AddressWord(s: Bytes)
    requires |s| == 32
    ensures Codec.Value(s) < TWO_160 <==> forall i :: 0 <= i < 12 ==> s[i] == 0
  {
    var high, low := s[..12], s[12..];
    assert s == high + low;
    ValueSplits(high, low);
    Codec.WidthsAsPowers();
    Codec.WordOfValue(low);
    ZeroValue(high);
    Scale(TWO_160, Codec.Value(high));
    assert forall i :: 0 <= i < 12 ==> high[i] == s[i];
  }

  /** Which bytes decode: at least four words, the two address words with twelve leading zero bytes. */
  lemma DecodesExactly(data: Bytes)
    ensures Codec.UnpackResult(data).Ok?
       <==> && |data| >= 128
            && (forall i :: 0 <= i < 12 ==> data[i] == 0) && (forall i :: 64 <= i < 76 ==> data[i] == 0)
  {
    Codec.PackInvertsUnpack(data);
    if |data| >= 128 {
      AddressWord(data[..32]);
      AddressWord(data[64..96]);
      assert forall i :: 0 <= i < 12 ==> data[..32][i] == data[i];
      assert forall i :: 64 <= i < 76 ==> data[i] == data[64..96][i - 64];
      assert forall i :: 0 <= i < 12 ==> data[64..96][i] == data[64 + i];
    }
  }

  /** What they decode to: the fields whose big-endian words these bytes are. */
  lemma DecodedByteByByte(data: Bytes, j: nat)
    requires Codec.UnpackResult(data).Ok? && j < 128
    ensures |data| >= 128 && data[j] == ByteAt(FieldAt(Codec.UnpackResult(data).value, j), j % 32)
  {
    Codec.PackInvertsUnpack(data);
    PackedByteByByte(Codec.UnpackResult(data).value);
    assert data[j] == data[..128][j];
  }

  // ---------------------------------------------------------------- what is hashed and signed

  /** "TEE_ACTION_RESULT" as a bytes32. */
  const DOMAIN: Bytes := [84, 69, 69, 95, 65, 67, 84, 73, 79, 78, 95, 82, 69, 83, 85, 76,
                          84, 0, 0, 0, 0, 0, 0, 0, 0, 0, 0, 0, 0, 0, 0, 0]

  /** 0x19, "Ethereum Signed Message:", a newline, "32". */
  const PERSONAL: Bytes := [25, 69, 116, 104, 101, 114, 101, 117, 109, 32, 83, 105, 103, 110, 101, 100, 32,
                            77, 101, 115, 115, 97, 103, 101, 58, 10, 51, 50]

  /** The 32 bytes the TEE node signs for a result on a chain. */
  function NodeDigest(keccak: Codec.Hash, chainId: U256, r: Codec.ActionResult): Codec.Bytes32 {
    var resultHash := keccak(keccak(r.data) + r.actionId + keccak(r.submissionTag) + [r.status]);
    var payloadHash := keccak(DOMAIN + BigEndian(chainId) + resultHash);
    keccak(PERSONAL + payloadHash)
  }

  lemma DomainBytes()
    ensures Codec.RESULT_PREFIX == DOMAIN && |DOMAIN| == 32
  {
    var text := Codec.Ascii("TEE_ACTION_RESULT");
    assert text == [84, 69, 69, 95, 65, 67, 84, 73, 79, 78, 95, 82, 69, 83, 85, 76, 84];
  }

  lemma AsciiOfConcatenation(a: string, b: string)
    ensures Codec.Ascii(a + b) == Codec.Ascii(a) + Codec.Ascii(b)
  {
  }

  lemma EthereumBytes()
    ensures Codec.Ascii("Ethereum Signed ")
            == [69, 116, 104, 101, 114, 101, 117, 109, 32, 83, 105, 103, 110, 101, 100, 32]
  {
  }

  lemma MessageBytes()
    ensures Codec.Ascii("Message:") == [77, 101, 115, 115, 97, 103, 101, 58]
  {
  }

  lemma PersonalBytes()
    ensures Codec.ETH_PREFIX == PERSONAL && |PERSONAL| == 28
  {
    AsciiOfConcatenation("Ethereum Signed ", "Message:");
    assert "Ethereum Signed " + "Message:" == "Ethereum Signed Message:";
    EthereumBytes();
    MessageBytes();
    assert Codec.Ascii("32") == [51, 50];
  }

  /** `settle` rebuilds exactly what the node signs. */
  lemma DigestIsTheNodes(keccak: Codec.Hash, chainId: U256, r: Codec.ActionResult)
    ensures Codec.Digest(keccak, chainId, r) == NodeDigest(keccak, chainId, r)
    ensures |Codec.SignedPreimage(keccak, chainId, r)| == 60 && |Codec.PayloadPreimage(keccak, chainId, r)| == 96
  {
    DomainBytes();
    PersonalBytes();
    WordIs(chainId);
  }

  /** The last byte of a signature, given as 0 or 1 or as 27 or 28. */
  predicate IsRecoveryByte(v: Byte) { v == 0 || v == 1 || v == 27 || v == 28 }

  function Normal(v: Byte): Byte { if v == 0 then 27 else if v == 1 then 28 else v }

  /** Whom a signature recovers to: 65 bytes r, s, v in this order, over what the node signs. */
  lemma SignerIs(chain: Codec.Chain, r: Codec.ActionResult, sig: Bytes, key: Address)
    requires key != ZERO_ADDRESS
    ensures Codec.SignerOf(chain, r, sig) == Ok(key)
       <==> && |sig| == 65 && IsRecoveryByte(sig[64])
            && chain.ecrecover(NodeDigest(chain.keccak, chain.chainId, r), Normal(sig[64]), sig[..32], sig[32..64])
                == key
  {
    DigestIsTheNodes(chain.keccak, chain.chainId, r);
  }

  /** Why a signature recovers to nobody. */
  lemma NoSigner(chain: Codec.Chain, r: Codec.ActionResult, sig: Bytes)
    ensures |sig| != 65 <==> Codec.SignerOf(chain, r, sig) == Revert(BadSignatureLength)
    ensures |sig| == 65 && !IsRecoveryByte(sig[64]) <==> Codec.SignerOf(chain, r, sig) == Revert(BadSignatureV)
    ensures Codec.SignerOf(chain, r, sig) == Revert(InvalidSignature) ==>
              chain.ecrecover(NodeDigest(chain.keccak, chain.chainId, r), Normal(sig[64]), sig[..32], sig[32..64])
              == ZERO_ADDRESS
  {
    DigestIsTheNodes(chain.keccak, chain.chainId, r);
  }
}

/**
 The share payload that key splitting prints and the event processor parses, and the preimage of a
 cluster id (keysplit/src/output.rs, eth/src/util.rs).
 */
module KeyShares {
  import opened Wrappers
  import opened OperatorIds
  import Congruence
  import Sorting

  type Byte = b: int | 0 <= b < 256
  type Bytes = seq<Byte>

  const BLS_SIGNATURE_LENGTH: nat := 96
  const BLS_PUBLIC_KEY_LENGTH: nat := 48
  const ENCRYPTED_KEY_LENGTH: nat := 256

  // ---------- pieces of equal size ----------

  function Concat(parts: seq<Bytes>): Bytes {
    if parts == [] then [] else parts[0] + Concat(parts[1..])
  }

  function Chunks(s: Bytes, k: nat): seq<Bytes>
    requires k > 0
  {
    if s == [] then [] else if |s| <= k then [s] else [s[..k]] + Chunks(s[k..], k)
  }

  lemma {:induction false} ConcatChunks(s: Bytes, k: nat)
    requires k > 0
    ensures Concat(Chunks(s, k)) == s
    decreases |s|
  {
    if |s| > k {
      ConcatChunks(s[k..], k);
      assert Chunks(s, k)[1..] == Chunks(s[k..], k);
    } else if s != [] {
      assert [s][1..] == [];
    }
  }

  lemma {:induction false} ChunksConcat(parts: seq<Bytes>, k: nat)
    requires k > 0 && forall i :: 0 <= i < |parts| ==> |parts[i]| == k
    ensures Chunks(Concat(parts), k) == parts
    decreases |parts|
  {
    if parts != [] {
      var s, rest := Concat(parts), Concat(parts[1..]);
      ChunksConcat(parts[1..], k);
      assert s[..k] == parts[0] && s[k..] == rest;
      if |parts| == 1 {
        assert parts[1..] == [] && s == parts[0] && parts == [s];
      } else {
        assert rest == parts[1] + Concat(parts[1..][1..]);
      }
    }
  }

  lemma {:induction false} ChunkSizes(s: Bytes, k: nat, n: nat)
    requires k > 0 && |s| == k * n
    ensures |Chunks(s, k)| == n && forall i :: 0 <= i < n ==> |Chunks(s, k)[i]| == k
    decreases n
  {
    if n > 0 {
      Congruence.Distribute(n, 1, k);
      if n > 1 {
        Congruence.MulBounds(n - 1, k);
        ChunkSizes(s[k..], k, n - 1);
      }
    }
  }

  lemma {:induction false} ConcatSize(parts: seq<Bytes>, k: nat)
    requires forall i :: 0 <= i < |parts| ==> |parts[i]| == k
    ensures |Concat(parts)| == k * |parts|
    decreases |parts|
  {
    if parts != [] {
      ConcatSize(parts[1..], k);
      Congruence.Distribute(|parts|, 1, k);
    }
  }

  // ---------- printing ----------

  datatype EncryptedKeyShare = EncryptedKeyShare(id: OperatorId, sharePublicKey: Bytes, encryptedKeyshare: Bytes)

  function HexDigit(n: nat): char
    requires n < 16
  {
    if n < 10 then '0' + n as char else 'a' + (n - 10) as char
  }

  function Hex(s: Bytes): string {
    if s == [] then "" else [HexDigit(s[0] / 16), HexDigit(s[0] % 16)] + Hex(s[1..])
  }

  lemma {:induction false} HexConcat(a: Bytes, b: Bytes)
    ensures Hex(a + b) == Hex(a) + Hex(b)
    decreases |a|
  {
    if a == [] {
      assert a + b == b;
    } else {
      assert (a + b)[1..] == a[1..] + b;
      HexConcat(a[1..], b);
    }
  }

  function Nibble(c: char): Option<nat> {
    if '0' <= c <= '9' then Some(c as nat - '0' as nat)
    else if 'a' <= c <= 'f' then Some(c as nat - 'a' as nat + 10)
    else if 'A' <= c <= 'F' then Some(c as nat - 'A' as nat + 10)
    else None
  }

  function Unhex(s: string): Option<Bytes> {
    if s == [] then Some([])
    else if |s| == 1 then None
    else
      match (Nibble(s[0]), Nibble(s[1]), Unhex(s[2..]))
      case (Some(hi), Some(lo), Some(rest)) => (if hi < 16 && lo < 16 then Some([16 * hi + lo] + rest) else None)
      case _ => None
  }

  lemma {:induction false} HexRoundTrip(s: Bytes)
    ensures Unhex(Hex(s)) == Some(s)
    decreases |s|
  {
    if s != [] {
      HexRoundTrip(s[1..]);
      NibbleOfDigit(s[0] / 16);
      NibbleOfDigit(s[0] % 16);
      assert Hex(s)[2..] == Hex(s[1..]);
      assert [s[0]] + s[1..] == s;
    }
  }

  lemma DigitExactly(n: nat)
    requires n < 16
    ensures HexDigit(n) == "0123456789abcdef"[n]
  {
  }

  lemma {:induction false} HexLength(s: Bytes)
    ensures |Hex(s)| == 2 * |s|
    decreases |s|
  {
    if s != [] {
      HexLength(s[1..]);
    }
  }

  // Two lower-case digits per byte, the higher one first, and nothing else.
  lemma {:induction false} HexExactly(s: Bytes, i: nat)
    requires i < |s|
    ensures |Hex(s)| == 2 * |s|
    ensures Hex(s)[2 * i] == "0123456789abcdef"[s[i] / 16] && Hex(s)[2 * i + 1] == "0123456789abcdef"[s[i] % 16]
    decreases i
  {
    hide HexDigit;
    HexLength(s);
    if i > 0 {
      HexExactly(s[1..], i - 1);
      assert Hex(s)[2..] == Hex(s[1..]);
    } else {
      DigitExactly(s[0] / 16);
      DigitExactly(s[0] % 16);
    }
  }

  lemma NibbleOfDigit(n: nat)
    requires n < 16
    ensures Nibble(HexDigit(n)) == Some(n)
  {
  }

  function PublicKeys(keys: seq<EncryptedKeyShare>): seq<Bytes> {
    seq(|keys|, i requires 0 <= i < |keys| => keys[i].sharePublicKey)
  }

  function Ciphertexts(keys: seq<EncryptedKeyShare>): seq<Bytes> {
    seq(|keys|, i requires 0 <= i < |keys| => keys[i].encryptedKeyshare)
  }

  lemma {:induction false} ConcatAppend(parts: seq<Bytes>, p: Bytes)
    ensures Concat(parts + [p]) == Concat(parts) + p
    decreases |parts|
  {
    if parts == [] {
      assert parts + [p] == [p] && (parts + [p])[1..] == [];
    } else {
      assert (parts + [p])[1..] == parts[1..] + [p];
      ConcatAppend(parts[1..], p);
    }
  }

  lemma NothingPrinted()
    ensures Concat([]) == [] && Hex([]) == ""
  {
  }

  // The two strings that are built up key by key.
  method ConcatenateKeyData(keys: seq<EncryptedKeyShare>) returns (publicKeys: string, encryptedData: string)
    ensures publicKeys == Hex(Concat(PublicKeys(keys))) && encryptedData == Hex(Concat(Ciphertexts(keys)))
  {
    hide Hex, Concat;
    NothingPrinted();
    assert PublicKeys(keys[..0]) == [] && Ciphertexts(keys[..0]) == [];
    publicKeys, encryptedData := "", "";
    for i := 0 to |keys|
      invariant publicKeys == Hex(Concat(PublicKeys(keys[..i]))) && encryptedData == Hex(Concat(Ciphertexts(keys[..i])))
    {
      var key := keys[i];
      assert PublicKeys(keys[..i + 1]) == PublicKeys(keys[..i]) + [key.sharePublicKey];
      assert Ciphertexts(keys[..i + 1]) == Ciphertexts(keys[..i]) + [key.encryptedKeyshare];
      ConcatAppend(PublicKeys(keys[..i]), key.sharePublicKey);
      ConcatAppend(Ciphertexts(keys[..i]), key.encryptedKeyshare);
      HexConcat(Concat(PublicKeys(keys[..i])), key.sharePublicKey);
      HexConcat(Concat(Ciphertexts(keys[..i])), key.encryptedKeyshare);
      publicKeys := publicKeys + Hex(key.sharePublicKey);
      encryptedData := encryptedData + Hex(key.encryptedKeyshare);
    }
    assert keys[..|keys|] == keys;
  }

  method SharesData(signature: Bytes, keys: seq<EncryptedKeyShare>) returns (s: string)
    ensures |s| >= 2 && s[..2] == "0x" && Unhex(s[2..]) == Some(Layout(signature, keys))
  {
    hide Hex, Unhex, Concat, PublicKeys, Ciphertexts;
    var publicKeys, encryptedData := ConcatenateKeyData(keys);
    s := "0x" + Hex(signature) + publicKeys + encryptedData;
    HexConcat(signature, Concat(PublicKeys(keys)));
    HexConcat(signature + Concat(PublicKeys(keys)), Concat(Ciphertexts(keys)));
    HexRoundTrip(Layout(signature, keys));
    assert s[2..] == Hex(Layout(signature, keys));
  }

  function Layout(signature: Bytes, keys: seq<EncryptedKeyShare>): Bytes {
    signature + Concat(PublicKeys(keys)) + Concat(Ciphertexts(keys))
  }

  // ---------- parsing ----------

  datatype Parsed = Parsed(signature: Bytes, shares: seq<EncryptedKeyShare>)

  // The length is the only thing that can be wrong.
  function ParseShares(s: Bytes, ids: seq<OperatorId>): Option<Parsed> {
    var publicKeysEnd := BLS_SIGNATURE_LENGTH + BLS_PUBLIC_KEY_LENGTH * |ids|;
    if |s| != publicKeysEnd + ENCRYPTED_KEY_LENGTH * |ids| then None
    else
      var publicKeys := Chunks(s[BLS_SIGNATURE_LENGTH..publicKeysEnd], BLS_PUBLIC_KEY_LENGTH);
      var ciphertexts := Chunks(s[publicKeysEnd..], ENCRYPTED_KEY_LENGTH);
      Some(Parsed(s[..BLS_SIGNATURE_LENGTH], Zip(publicKeys, ciphertexts, ids)))
  }

  // As long as the shortest of the three.
  function Zip(ps: seq<Bytes>, cs: seq<Bytes>, ids: seq<OperatorId>): seq<EncryptedKeyShare> {
    if ps == [] || cs == [] || ids == [] then []
    else [EncryptedKeyShare(ids[0], ps[0], cs[0])] + Zip(ps[1..], cs[1..], ids[1..])
  }

  lemma {:induction false} ZipAll(ps: seq<Bytes>, cs: seq<Bytes>, ids: seq<OperatorId>)
    requires |ps| == |cs| == |ids|
    ensures var z := Zip(ps, cs, ids);
            |z| == |ids| && forall i :: 0 <= i < |z| ==> z[i] == EncryptedKeyShare(ids[i], ps[i], cs[i])
    decreases |ids|
  {
    if ids != [] {
      ZipAll(ps[1..], cs[1..], ids[1..]);
    }
  }

  ghost predicate WellSized(signature: Bytes, keys: seq<EncryptedKeyShare>) {
    && |signature| == BLS_SIGNATURE_LENGTH
    && forall i :: 0 <= i < |keys| ==>
         |keys[i].sharePublicKey| == BLS_PUBLIC_KEY_LENGTH && |keys[i].encryptedKeyshare| == ENCRYPTED_KEY_LENGTH
  }

  function Ids(keys: seq<EncryptedKeyShare>): seq<OperatorId> {
    seq(|keys|, i requires 0 <= i < |keys| => keys[i].id)
  }

  // Parsing undoes printing, in operator order, for every number of operators.
  lemma ParseOfLayout(signature: Bytes, keys: seq<EncryptedKeyShare>)
    requires WellSized(signature, keys)
    ensures ParseShares(Layout(signature, keys), Ids(keys)) == Some(Parsed(signature, keys))
  {
    hide Chunks, Zip, Concat;
    var s, ps, cs := Layout(signature, keys), PublicKeys(keys), Ciphertexts(keys);
    ConcatSize(ps, BLS_PUBLIC_KEY_LENGTH);
    ConcatSize(cs, ENCRYPTED_KEY_LENGTH);
    var mid := BLS_SIGNATURE_LENGTH + BLS_PUBLIC_KEY_LENGTH * |keys|;
    assert s[..BLS_SIGNATURE_LENGTH] == signature && s[BLS_SIGNATURE_LENGTH..mid] == Concat(ps)
           && s[mid..] == Concat(cs);
    ChunksConcat(ps, BLS_PUBLIC_KEY_LENGTH);
    ChunksConcat(cs, ENCRYPTED_KEY_LENGTH);
    ZipAll(ps, cs, Ids(keys));
    assert Zip(ps, cs, Ids(keys)) == keys;
  }

  lemma SliceAfter(a: Bytes, b: Bytes, from: nat, k: nat)
    requires from + k <= |b|
    ensures (a + b)[|a| + from..|a| + from + k] == b[from..from + k]
  {
  }

  lemma {:induction false} ConcatAt(parts: seq<Bytes>, k: nat, i: nat)
    requires i < |parts| && forall j :: 0 <= j < |parts| ==> |parts[j]| == k
    ensures k * i + k <= |Concat(parts)| && Concat(parts)[k * i..k * i + k] == parts[i]
    decreases i
  {
    var rest := Concat(parts[1..]);
    if i > 0 {
      ConcatAt(parts[1..], k, i - 1);
      Congruence.Distribute(i, 1, k);
      SliceAfter(parts[0], rest, k * (i - 1), k);
    } else {
      assert Concat(parts)[0..k] == parts[0];
    }
  }

  // Where everything is: the signature in the first 96 bytes, then all public keys of 48, then all
  // ciphertexts of 256.
  lemma LayoutExactly(signature: Bytes, keys: seq<EncryptedKeyShare>, i: nat)
    requires |signature| == 96 && i < |keys|
    requires forall j :: 0 <= j < |keys| ==> |keys[j].sharePublicKey| == 48 && |keys[j].encryptedKeyshare| == 256
    ensures var s, n := Layout(signature, keys), |keys|;
            && |s| == 96 + 304 * n && s[..96] == signature
            && s[96 + 48 * i..96 + 48 * i + 48] == keys[i].sharePublicKey
            && s[96 + 48 * n + 256 * i..96 + 48 * n + 256 * i + 256] == keys[i].encryptedKeyshare
  {
    hide Concat;
    var s, n, ps, cs := Layout(signature, keys), |keys|, PublicKeys(keys), Ciphertexts(keys);
    ConcatSize(ps, 48);
    ConcatSize(cs, 256);
    ConcatAt(ps, 48, i);
    ConcatAt(cs, 256, i);
    assert s[96 + 48 * i..96 + 48 * i + 48] == Concat(ps)[48 * i..48 * i + 48];
    assert s[96 + 48 * n + 256 * i..96 + 48 * n + 256 * i + 256] == Concat(cs)[256 * i..256 * i + 256];
  }

  // Printing undoes parsing: whatever is accepted is the layout of what was read from it.
  lemma LayoutOfParse(s: Bytes, ids: seq<OperatorId>)
    ensures var r := ParseShares(s, ids);
            && (r.Some? <==> |s| == BLS_SIGNATURE_LENGTH + (BLS_PUBLIC_KEY_LENGTH + ENCRYPTED_KEY_LENGTH) * |ids|)
            && (r.Some? ==>
                  && Layout(r.value.signature, r.value.shares) == s
                  && WellSized(r.value.signature, r.value.shares) && Ids(r.value.shares) == ids)
  {
    hide Chunks, Zip, Concat;
    var r := ParseShares(s, ids);
    if r.Some? {
      var mid := BLS_SIGNATURE_LENGTH + BLS_PUBLIC_KEY_LENGTH * |ids|;
      var a, b := s[BLS_SIGNATURE_LENGTH..mid], s[mid..];
      var ps, cs := Chunks(a, BLS_PUBLIC_KEY_LENGTH), Chunks(b, ENCRYPTED_KEY_LENGTH);
      ChunkSizes(a, BLS_PUBLIC_KEY_LENGTH, |ids|);
      ChunkSizes(b, ENCRYPTED_KEY_LENGTH, |ids|);
      ZipAll(ps, cs, ids);
      assert PublicKeys(r.value.shares) == ps && Ciphertexts(r.value.shares) == cs;
      ConcatChunks(a, BLS_PUBLIC_KEY_LENGTH);
      ConcatChunks(b, ENCRYPTED_KEY_LENGTH);
      assert s == s[..BLS_SIGNATURE_LENGTH] + a + b;
    }
  }

  lemma ParsedAt(s: Bytes, ids: seq<OperatorId>, i: nat)
    requires ParseShares(s, ids).Some? && i < |ids|
    ensures var r, n := ParseShares(s, ids).value, |ids|;
            && |s| == 96 + 304 * n && s[..96] == r.signature && |r.shares| == n
            && r.shares[i] == EncryptedKeyShare(ids[i], s[96 + 48 * i..96 + 48 * i + 48],
                                                s[96 + 48 * n + 256 * i..96 + 48 * n + 256 * i + 256])
  {
    hide ParseShares, Layout;
    var r := ParseShares(s, ids).value;
    LayoutOfParse(s, ids);
    LayoutExactly(r.signature, r.shares, i);
    assert Ids(r.shares)[i] == ids[i];
  }

  // Exactly the payloads of 96 bytes and 304 more per operator are read, each part from its place.
  lemma ParseExactly(s: Bytes, ids: seq<OperatorId>)
    ensures var r, n := ParseShares(s, ids), |ids|;
            && (r.Some? <==> |s| == 96 + 304 * n)
            && (r.Some? ==>
                  && r.value.signature == s[..96] && |r.value.shares| == n
                  && forall i :: 0 <= i < n ==>
                       r.value.shares[i]
                       == EncryptedKeyShare(ids[i], s[96 + 48 * i..96 + 48 * i + 48],
                                            s[96 + 48 * n + 256 * i..96 + 48 * n + 256 * i + 256]))
  {
    hide Chunks, Zip, Layout;
    LayoutOfParse(s, ids);
    var r, n := ParseShares(s, ids), |ids|;
    if r.Some? {
      hide ParseShares;
      assert |Ids(r.value.shares)| == n;
      forall i | 0 <= i < n
        ensures r.value.shares[i]
                == EncryptedKeyShare(ids[i], s[96 + 48 * i..96 + 48 * i + 48],
                                     s[96 + 48 * n + 256 * i..96 + 48 * n + 256 * i + 256])
      {
        ParsedAt(s, ids, i);
      }
    }
  }

  // ---------- cluster ids ----------

  const ADDRESS_LENGTH: nat := 20

  function BigEndian(n: nat, k: nat): (r: Bytes)
    ensures |r| == k
  {
    if k == 0 then [] else BigEndian(n / 256, k - 1) + [n % 256]
  }

  predicate Fits(n: nat, k: nat) {
    if k == 0 then n == 0 else Fits(n / 256, k - 1)
  }

  function Value(s: Bytes): nat {
    if s == [] then 0 else 256 * Value(s[..|s|-1]) + s[|s|-1]
  }

  lemma {:induction false} BigEndianValue(n: nat, k: nat)
    requires Fits(n, k)
    ensures Value(BigEndian(n, k)) == n
    decreases k
  {
    if k > 0 {
      BigEndianValue(n / 256, k - 1);
      assert BigEndian(n, k)[..k-1] == BigEndian(n / 256, k - 1);
    }
  }

  lemma FitsOneMore(n: nat, k: nat, bound: nat)
    requires n < 256 * bound && (n / 256 < bound ==> Fits(n / 256, k))
    ensures Fits(n, k + 1)
  {
  }

  lemma FitsWord(n: nat)
    requires n < 0x1_0000_0000_0000_0000
    ensures Fits(n, 8)
  {
    var n1 := n / 256;
    var n2 := n1 / 256;
    var n3 := n2 / 256;
    var n4 := n3 / 256;
    FitsHalf(n4);
    FitsOneMore(n3, 4, 0x1_0000_0000);
    FitsOneMore(n2, 5, 0x100_0000_0000);
    FitsOneMore(n1, 6, 0x1_0000_0000_0000);
    FitsOneMore(n, 7, 0x100_0000_0000_0000);
  }

  lemma FitsHalf(n: nat)
    requires n < 0x1_0000_0000
    ensures Fits(n, 4)
  {
    var n1 := n / 256;
    var n2 := n1 / 256;
    var n3 := n2 / 256;
    FitsOneMore(n3, 0, 1);
    FitsOneMore(n2, 1, 0x100);
    FitsOneMore(n1, 2, 0x1_0000);
    FitsOneMore(n, 3, 0x100_0000);
  }

  // An id as a 32-byte word.
  function Word(id: OperatorId): (r: Bytes)
    ensures |r| == 32
  {
    seq(24, _ => 0) + BigEndian(id, 8)
  }

  function Words(ids: seq<OperatorId>): seq<Bytes> {
    seq(|ids|, i requires 0 <= i < |ids| => Word(ids[i]))
  }

  // What is hashed into a cluster id.
  function Preimage(owner: Bytes, ids: seq<OperatorId>): Bytes {
    owner + Concat(Words(Sorting.Sort(ids)))
  }

  method ComputePreimage(owner: Bytes, ids: seq<OperatorId>) returns (r: Bytes)
    ensures r == Preimage(owner, ids)
  {
    hide Concat, BigEndian, Sorting.Sort;
    NothingPrinted();
    var sorted := ids;
    if Sorting.Ascending(ids) {
      Sorting.AscendingUnique(ids, Sorting.Sort(ids));
    } else {
      sorted := Sorting.Sort(ids);
    }
    r := owner;
    assert Words(sorted[..0]) == [];
    for i := 0 to |sorted|
      invariant r == owner + Concat(Words(sorted[..i]))
    {
      assert Words(sorted[..i + 1]) == Words(sorted[..i]) + [Word(sorted[i])];
      ConcatAppend(Words(sorted[..i]), Word(sorted[i]));
      r := r + seq(24, _ => 0);
      r := r + BigEndian(sorted[i], 8);
    }
    assert sorted[..|sorted|] == sorted;
  }

  lemma WordUnique(a: OperatorId, b: OperatorId)
    requires a < 0x1_0000_0000_0000_0000 && b < 0x1_0000_0000_0000_0000 && Word(a) == Word(b)
    ensures a == b
  {
    assert BigEndian(a, 8) == Word(a)[24..] && BigEndian(b, 8) == Word(b)[24..];
    FitsWord(a);
    FitsWord(b);
    BigEndianValue(a, 8);
    BigEndianValue(b, 8);
  }

  lemma WordsUnique(a: seq<OperatorId>, b: seq<OperatorId>)
    requires forall i :: 0 <= i < |a| ==> a[i] < 0x1_0000_0000_0000_0000
    requires forall i :: 0 <= i < |b| ==> b[i] < 0x1_0000_0000_0000_0000
    requires Concat(Words(a)) == Concat(Words(b))
    ensures a == b
  {
    ConcatSize(Words(a), 32);
    ConcatSize(Words(b), 32);
    ChunksConcat(Words(a), 32);
    ChunksConcat(Words(b), 32);
    forall i | 0 <= i < |a|
      ensures a[i] == b[i]
    {
      assert Words(a)[i] == Words(b)[i];
      WordUnique(a[i], b[i]);
    }
  }

  // Two preimages are equal exactly when owner and operators are, the operators in any order.
  lemma PreimageExactly(owner: Bytes, ids: seq<OperatorId>, owner': Bytes, ids': seq<OperatorId>)
    requires |owner| == |owner'| == ADDRESS_LENGTH
    requires forall i :: 0 <= i < |ids| ==> ids[i] < 0x1_0000_0000_0000_0000
    requires forall i :: 0 <= i < |ids'| ==> ids'[i] < 0x1_0000_0000_0000_0000
    ensures Preimage(owner, ids) == Preimage(owner', ids') <==> owner == owner' && multiset(ids) == multiset(ids')
  {
    var a, b := Sorting.Sort(ids), Sorting.Sort(ids');
    Sorting.SortCanonical(ids, ids');
    if Preimage(owner, ids) == Preimage(owner', ids') {
      assert owner == Preimage(owner, ids)[..ADDRESS_LENGTH] && owner' == Preimage(owner', ids')[..ADDRESS_LENGTH];
      assert Concat(Words(a)) == Preimage(owner, ids)[ADDRESS_LENGTH..]
             && Concat(Words(b)) == Preimage(owner', ids')[ADDRESS_LENGTH..];
      SortedWithin(ids);
      SortedWithin(ids');
      WordsUnique(a, b);
    }
  }

  lemma {:induction false} ValueAfterZeros(n: nat, s: Bytes)
    ensures Value(seq(n, _ => 0) + s) == Value(s)
    decreases n + |s|
  {
    var t := seq(n, _ => 0) + s;
    if s != [] {
      assert t[..|t|-1] == seq(n, _ => 0) + s[..|s|-1];
      ValueAfterZeros(n, s[..|s|-1]);
    } else if n > 0 {
      assert t[..|t|-1] == seq(n - 1, _ => 0) + s;
      ValueAfterZeros(n - 1, s);
    } else {
      assert t == s;
    }
  }

  // After the owner come the ids in ascending order, 32 bytes each, as big-endian numbers.
  lemma PreimageLayout(owner: Bytes, ids: seq<OperatorId>, i: nat)
    requires i < |ids| && forall j :: 0 <= j < |ids| ==> ids[j] < 0x1_0000_0000_0000_0000
    ensures var r, at := Preimage(owner, ids), |owner| + 32 * i;
            && |r| == |owner| + 32 * |ids| && r[..|owner|] == owner
            && Sorting.Ascending(Sorting.Sort(ids)) && multiset(Sorting.Sort(ids)) == multiset(ids)
            && Value(r[at..at + 32]) == Sorting.Sort(ids)[i]
  {
    hide Concat, Sorting.Sort, BigEndian, Value;
    var sorted, r := Sorting.Sort(ids), Preimage(owner, ids);
    var ws := Words(sorted);
    ConcatSize(ws, 32);
    ConcatAt(ws, 32, i);
    SliceAfter(owner, Concat(ws), 32 * i, 32);
    SortedWithin(ids);
    FitsWord(sorted[i]);
    BigEndianValue(sorted[i], 8);
    ValueAfterZeros(24, BigEndian(sorted[i], 8));
  }

  lemma SortedWithin(ids: seq<OperatorId>)
    requires forall i :: 0 <= i < |ids| ==> ids[i] < 0x1_0000_0000_0000_0000
    ensures forall i :: 0 <= i < |Sorting.Sort(ids)| ==> Sorting.Sort(ids)[i] < 0x1_0000_0000_0000_0000
  {
    var r := Sorting.Sort(ids);
    forall i | 0 <= i < |r|
      ensures r[i] < 0x1_0000_0000_0000_0000
    {
      Sorting.SameElements(ids, r, r[i]);
    }
  }
}

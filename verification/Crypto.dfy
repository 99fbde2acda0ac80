/**
  The cryptographic operations the blob format is built from, as abstract functions with the laws that
  matter for layout: what locks can be unlocked, and by how much each operation lengthens its input.
*/
module Crypto {
  import opened Common
  import opened HashTypes

  datatype Suite = Suite(
    keyBytes: nat, nonceBytes: nat, macBytes: nat, sealBytes: nat, digestBytes: nat,
    symLock: (Bytes, Bytes, Bytes, Bytes) -> Bytes,           // plaintext, additional data, nonce, key
    symUnlock: (Bytes, Bytes, Bytes, Bytes) -> Option<Bytes>, // ciphertext, additional data, nonce, key
    dataLock: Bytes -> Bytes, dataUnlock: Bytes -> Bytes,
    accessLock: Bytes -> Bytes, accessUnlock: Bytes -> Bytes,
    mixKeys: (Bytes, Bytes) -> Bytes,
    authentication: Bytes -> Bytes,
    salt: (nat, LeafType) -> Bytes,
    blobName: nat -> Bytes,
    encode: HashRef -> Bytes, decode: Bytes -> Option<HashRef>
  )
  {
    function FooterPlainBytes(): nat { 8 + keyBytes }
    function FooterCipherBytes(): nat { FooterPlainBytes() + sealBytes }
    function AccessPlainBytes(): nat { FooterCipherBytes() + keyBytes }
    function AccessCipherBytes(): nat { AccessPlainBytes() + sealBytes }

    /** By how much sealing the footer lengthens it. */
    function SealOverhead(): nat { macBytes + nonceBytes + AccessCipherBytes() }

    /** Everything in a blob besides chunks, padding and footer. */
    function Overhead(): nat { SealOverhead() + digestBytes }
  }

  ghost predicate SymmetricLaw(s: Suite) {
    && (forall p, a, n, k :: |s.symLock(p, a, n, k)| == |p| + s.macBytes)
    && (forall p, a, n, k :: s.symUnlock(s.symLock(p, a, n, k), a, n, k) == Some(p))
  }

  ghost predicate SealLaw(s: Suite) {
    && (forall p :: |s.dataLock(p)| == |p| + s.sealBytes)
    && (forall p :: s.dataUnlock(s.dataLock(p)) == p)
    && (forall p :: |s.accessLock(p)| == |p| + s.sealBytes)
    && (forall p :: s.accessUnlock(s.accessLock(p)) == p)
    && (forall c :: |c| >= s.sealBytes ==> |s.dataUnlock(c)| == |c| - s.sealBytes)
    && (forall c :: |c| >= s.sealBytes ==> |s.accessUnlock(c)| == |c| - s.sealBytes)
  }

  /** A reference survives its serialised form up to the local blob id. */
  ghost predicate CodecLaw(s: Suite) {
    forall h :: s.decode(s.encode(h)) == Some(h.ToModel())
  }

  ghost predicate Lawful(s: Suite) {
    && SymmetricLaw(s) && SealLaw(s) && CodecLaw(s)
    && s.macBytes > 0 && s.nonceBytes > 0
    && (forall d :: |s.authentication(d)| == s.digestBytes)
    && (forall i, j :: s.blobName(i) == s.blobName(j) ==> i == j)
  }

  // ---------------------------------------------------------------- little-endian integers

  function Pow256(n: nat): (p: nat)
    ensures p > 0
  {
    if n == 0 then 1 else 256 * Pow256(n - 1)
  }

  function ToLittleEndian(n: nat, width: nat): (b: Bytes)
    ensures |b| == width
  {
    if width == 0 then [] else [n % 256] + ToLittleEndian(n / 256, width - 1)
  }

  function FromLittleEndian(b: Bytes): nat {
    if b == [] then 0 else b[0] + 256 * FromLittleEndian(b[1..])
  }

  lemma {:induction false} LittleEndianRoundTrip(n: nat, width: nat)
    requires n < Pow256(width)
    ensures FromLittleEndian(ToLittleEndian(n, width)) == n
  {
    if width > 0 {
      assert n / 256 < Pow256(width - 1);
      LittleEndianRoundTrip(n / 256, width - 1);
      assert ToLittleEndian(n, width)[1..] == ToLittleEndian(n / 256, width - 1);
    }
  }

  /** Lengths are written as signed 64-bit integers. */
  const MAX_I64: nat := 0x8000_0000_0000_0000

  lemma SmallLength(n: nat)
    requires n < MAX_I64
    ensures n < Pow256(8)
  {
  }

  // ---------------------------------------------------------------- splitting

  function SplitFromRight(b: Bytes, n: nat): Option<(Bytes, Bytes)> {
    if |b| < n then None else Some((b[..|b| - n], b[|b| - n..]))
  }

  lemma SplitJoined(a: Bytes, b: Bytes)
    ensures SplitFromRight(a + b, |b|) == Some((a, b))
  {
  }

  // ---------------------------------------------------------------- sealing the footer

  const SEAL_DATA: Bytes := [104, 97, 116, 95, 98, 108, 111, 98, 95, 115, 101, 97, 108, 126]

  function InnerCipher(s: Suite, pt: Bytes, nonce: Bytes, innerKey: Bytes): Bytes {
    s.symLock(pt, SEAL_DATA, nonce, innerKey) + nonce
  }

  function FooterCipher(s: Suite, length: nat, innerKey: Bytes): Bytes {
    s.dataLock(ToLittleEndian(length, 8) + innerKey)
  }

  /** The sealed form of `pt`: locked with a fresh inner key, which is sealed for the holder of the data
      key, and that together with the access key for the holder of the access key. */
  function Sealed(s: Suite, accessKey: Bytes, pt: Bytes, nonce: Bytes, innerKey: Bytes): Bytes {
    var inner := InnerCipher(s, pt, nonce, innerKey);
    inner + s.accessLock(FooterCipher(s, |inner|, innerKey) + accessKey)
  }

  lemma SealedLength(s: Suite, accessKey: Bytes, pt: Bytes, nonce: Bytes, innerKey: Bytes)
    requires Lawful(s) && |accessKey| == s.keyBytes && |innerKey| == s.keyBytes && |nonce| == s.nonceBytes
    ensures |InnerCipher(s, pt, nonce, innerKey)| == |pt| + s.macBytes + s.nonceBytes
    ensures |FooterCipher(s, |InnerCipher(s, pt, nonce, innerKey)|, innerKey)| == s.FooterCipherBytes()
    ensures |Sealed(s, accessKey, pt, nonce, innerKey)| == |pt| + s.SealOverhead()
  {
  }

  /** Access key, footer ciphertext and what precedes them, for the holder of the access key. */
  function UnsealAccess(s: Suite, ct: Bytes): Option<(Bytes, Bytes, Bytes)> {
    match SplitFromRight(ct, s.AccessCipherBytes())
    case None => None
    case Some((rest, access)) =>
      match SplitFromRight(s.accessUnlock(access), s.keyBytes)
      case None => None
      case Some((footer, key)) => Some((key, footer, rest))
  }

  /** What precedes the sealed text, and the text, for the holder of the data key. */
  function Unseal(s: Suite, footer: Bytes, ct: Bytes): Option<(Bytes, Bytes)> {
    match SplitFromRight(s.dataUnlock(footer), s.keyBytes)
    case None => None
    case Some((length, innerKey)) =>
      match SplitFromRight(ct, FromLittleEndian(length))
      case None => None
      case Some((rest, inner)) =>
        match SplitFromRight(inner, s.nonceBytes)
        case None => None
        case Some((locked, nonce)) =>
          match s.symUnlock(locked, SEAL_DATA, nonce, innerKey)
          case None => None
          case Some(pt) => Some((rest, pt))
  }

  lemma UnsealAccessSealed(s: Suite, front: Bytes, accessKey: Bytes, pt: Bytes, nonce: Bytes, innerKey: Bytes)
    requires Lawful(s) && |accessKey| == s.keyBytes && |innerKey| == s.keyBytes && |nonce| == s.nonceBytes
    ensures var inner := InnerCipher(s, pt, nonce, innerKey);
      UnsealAccess(s, front + Sealed(s, accessKey, pt, nonce, innerKey))
        == Some((accessKey, FooterCipher(s, |inner|, innerKey), front + inner))
  {
    SealedLength(s, accessKey, pt, nonce, innerKey);
    var inner := InnerCipher(s, pt, nonce, innerKey);
    var footer := FooterCipher(s, |inner|, innerKey);
    var access := s.accessLock(footer + accessKey);
    assert front + Sealed(s, accessKey, pt, nonce, innerKey) == (front + inner) + access;
    SplitJoined(front + inner, access);
    SplitJoined(footer, accessKey);
  }

  lemma UnsealSealed(s: Suite, front: Bytes, pt: Bytes, nonce: Bytes, innerKey: Bytes)
    requires Lawful(s) && |innerKey| == s.keyBytes && |nonce| == s.nonceBytes
    requires |pt| + s.macBytes + s.nonceBytes < MAX_I64
    ensures var inner := InnerCipher(s, pt, nonce, innerKey);
      Unseal(s, FooterCipher(s, |inner|, innerKey), front + inner) == Some((front, pt))
  {
    var inner := InnerCipher(s, pt, nonce, innerKey);
    var length := ToLittleEndian(|inner|, 8);
    SplitJoined(length, innerKey);
    SmallLength(|inner|);
    LittleEndianRoundTrip(|inner|, 8);
    SplitJoined(front, inner);
    SplitJoined(s.symLock(pt, SEAL_DATA, nonce, innerKey), nonce);
  }
}

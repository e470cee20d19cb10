/**
 * The parts of BIP 32 ("Hierarchical Deterministic Wallets") that the Ledger
 * protocol layer touches: child numbers, derivation paths and the fields of the
 * "Serialization format" of an extended public key. The types stand for those
 * of the `bitcoin` crate, reduced to their field layout.
 */
module Bip32 {
  import opened Bytes

  /** Child numbers at or above this value are hardened (section "Child key derivation (CKD) functions"). */
  const HardenedOffset: int := 0x8000_0000

  type Index = i: int | 0 <= i < 0x8000_0000

  /** `bip32::ChildNumber`: a 31-bit index, normal or hardened. */
  datatype ChildNumber = Normal(index: Index) | Hardened(index: Index)

  /** `DerivationPath`: the child numbers from the master key down, in order. */
  type DerivationPath = seq<ChildNumber>

  /** `u32::from(ChildNumber)`: a hardened index has the high bit set, i.e. it is `i + 2^31`. */
  function Raw(c: ChildNumber): (n: u32)
    ensures c.Normal? <==> n < HardenedOffset
    ensures n % HardenedOffset == c.index
  {
    match c
    case Normal(i) => i
    case Hardened(i) => i + HardenedOffset
  }

  /** `ChildNumber::from(u32)`: the high bit decides hardened or normal. */
  function FromU32(n: u32): (c: ChildNumber)
    ensures Raw(c) == n
  {
    if n >= HardenedOffset then Hardened(n - HardenedOffset) else Normal(n)
  }

  /** `Raw` is injective: two child numbers with the same raw value are equal. */
  lemma RawInjective(c: ChildNumber, d: ChildNumber)
    requires Raw(c) == Raw(d)
    ensures c == d
  {
    assert c.Normal? == d.Normal?;
    assert c.index == Raw(c) % HardenedOffset == d.index;
  }

  /** Converting a child number to its raw value and back gives it back. */
  lemma FromRawInverse(c: ChildNumber)
    ensures FromU32(Raw(c)) == c
  {
    RawInjective(FromU32(Raw(c)), c);
  }

  /** `bitcoin::Network`: the tag an extended key is serialised under. */
  datatype Network = Bitcoin | Testnet | Regtest

  /** A secp256k1 curve point, as the curve library returns it; its internals are not modelled. */
  datatype CurvePoint = CurvePoint(serialized: seq<byte>)

  /** `util::key::PublicKey`: a point and whether it is written in compressed form. */
  datatype PublicKey = PublicKey(compressed: bool, key: CurvePoint)

  type Fingerprint = s: seq<byte> | |s| == 4 witness [0, 0, 0, 0]

  type ChainCode = s: seq<byte> | |s| == 32 witness seq(32, _ => 0)

  /** `Fingerprint::default()`: four zero bytes. */
  const ZeroFingerprint: Fingerprint := [0, 0, 0, 0]

  /** `ExtendedPubKey`: the fields of the BIP 32 serialisation format. */
  datatype ExtendedPubKey = ExtendedPubKey(
    network: Network,
    depth: byte,
    parentFingerprint: Fingerprint,
    childNumber: ChildNumber,
    publicKey: PublicKey,
    chainCode: ChainCode)
}

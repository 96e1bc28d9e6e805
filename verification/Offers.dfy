/** The swap offer record and the foreign codecs it is printed with. */
module Offers {
  import opened Base

  /** An arkade asset: the issuing transaction and the issuance index in it. */
  datatype AssetId = AssetId(txid: bytes, index: u16)

  /** A secp256k1 public key: its x coordinate and the parity of its y coordinate. */
  datatype PubKey = PubKey(x: bytes, odd: bool)

  datatype LocktimeType = Block | Second
  datatype RelativeLocktime = RelativeLocktime(kind: LocktimeType, value: u32)

  datatype Offer = Offer(
    swapPkScript: bytes,
    wantAmount: u64,
    wantAsset: Option<AssetId>,       // None = BTC
    offerAsset: Option<AssetId>,      // None = BTC
    ratioNum: u64,
    ratioDen: u64,
    cancelAt: u64,
    makerPkScript: bytes,
    makerPublicKey: Option<PubKey>,
    introspectorPubkey: Option<PubKey>,
    exitDelay: Option<RelativeLocktime>)

  /** The ark-lib and btcec operations the codec calls; their code is outside the repository. */
  datatype Codecs = Codecs(
    parseAsset: bytes -> Option<AssetId>,       // asset.NewAssetIdFromBytes
    printAsset: AssetId -> Option<bytes>,       // AssetId.Serialize
    onCurve: bytes -> bool)                     // a 32-byte x coordinate names a point

  /** An asset ID that survives printing and parsing, and whose print fits a record. */
  predicate GoodAsset(c: Codecs, a: AssetId)
  {
    && c.printAsset(a).Some?
    && |c.printAsset(a).value| < TWO16
    && c.parseAsset(c.printAsset(a).value) == Some(a)
  }

  /** The assumption made about the foreign asset codec: parsed IDs round-trip. */
  ghost predicate Lawful(c: Codecs)
  {
    forall v :: c.parseAsset(v).Some? ==> GoodAsset(c, c.parseAsset(v).value)
  }

  /** schnorr.ParsePubKey: an x-only key is lifted to the point with even y (BIP 340, "Specification"). */
  function ParseKey(c: Codecs, v: bytes): Option<PubKey>
  {
    if |v| == 32 && c.onCurve(v) then Some(PubKey(v, false)) else None
  }

  /** A key that an x-only record can carry without loss. */
  predicate GoodKey(c: Codecs, k: PubKey)
  {
    ParseKey(c, k.x) == Some(k)
  }

  /** The offers the wire format can carry. */
  predicate WellFormed(c: Codecs, o: Offer)
  {
    && |o.swapPkScript| < TWO16
    && |o.makerPkScript| == 34
    && o.introspectorPubkey.Some?
    && GoodKey(c, o.introspectorPubkey.value)
    && (o.makerPublicKey.Some? ==> GoodKey(c, o.makerPublicKey.value))
    && (o.wantAsset.Some? ==> GoodAsset(c, o.wantAsset.value))
    && (o.offerAsset.Some? ==> GoodAsset(c, o.offerAsset.value))
  }

  function EvenKey(k: Option<PubKey>): Option<PubKey>
  {
    if k.Some? then Some(PubKey(k.value.x, false)) else None
  }

  /** The offer with both keys lifted to even y. */
  function EvenKeys(o: Offer): Offer
  {
    o.(makerPublicKey := EvenKey(o.makerPublicKey), introspectorPubkey := EvenKey(o.introspectorPubkey))
  }
}

/** DeserializeOffer of pkg/contract/offer.go. */
module OfferCodec {
  import opened Base
  import opened Tlv
  import opened Offers

  const SWAP_PK_SCRIPT: byte := 0x01
  const WANT_AMOUNT: byte := 0x02
  const WANT_ASSET: byte := 0x03
  const CANCEL_DELAY: byte := 0x04
  const MAKER_PK_SCRIPT: byte := 0x05
  const MAKER_PUBLIC_KEY: byte := 0x07
  const INTROSPECTOR_PUBKEY: byte := 0x08
  const RATIO_NUM: byte := 0x09
  const RATIO_DEN: byte := 0x0a
  const OFFER_ASSET: byte := 0x0b
  const EXIT_TIMELOCK: byte := 0x0c

  datatype CodecError =
    | Truncated(cut: Cut)
    | InvalidField(tag: byte)
    | UnknownType(tag: byte)
    | Missing(tag: byte)
    | UnprintableAsset(tag: byte)

  /** The decoder's locals: the offer under construction and its four "has" flags. */
  datatype Draft = Draft(offer: Offer, hasSwap: bool, hasWant: bool, hasMaker: bool, hasIntrospector: bool)

  const EMPTY_OFFER := Offer([], 0, None, None, 0, 0, 0, [], None, None, None)
  const EMPTY_DRAFT := Draft(EMPTY_OFFER, false, false, false, false)

  function Word(v: bytes): (n: u64)
    requires |v| == 8
  {
    Word64Bound(v);
    FromBigEndian(v)
  }

  /** The nine exit bytes: only type byte 1 means seconds, and the delay is cut to 32 bits. */
  function ParseExit(v: bytes): RelativeLocktime
    requires |v| == 9
  {
    RelativeLocktime(if v[0] == 1 then Second else Block, Word(v[1..]) % TWO32)
  }

  function PrintExit(e: RelativeLocktime): (v: bytes)
    ensures |v| == 9
  {
    [if e.kind.Second? then 1 else 0] + BigEndian(e.value, 8)
  }

  /** One turn of the decoder's switch. */
  function Apply(c: Codecs, d: Draft, r: Record): Result<Draft, CodecError>
  {
    var o, v := d.offer, r.value;
    if r.tag == SWAP_PK_SCRIPT then
      Ok(d.(offer := o.(swapPkScript := v), hasSwap := true))
    else if r.tag == WANT_AMOUNT then
      if |v| != 8 then Err(InvalidField(r.tag))
      else Ok(d.(offer := o.(wantAmount := Word(v)), hasWant := true))
    else if r.tag == WANT_ASSET then
      if c.parseAsset(v) == None then Err(InvalidField(r.tag))
      else Ok(d.(offer := o.(wantAsset := c.parseAsset(v))))
    else if r.tag == CANCEL_DELAY then
      if |v| != 8 then Err(InvalidField(r.tag))
      else Ok(d.(offer := o.(cancelAt := Word(v))))
    else if r.tag == MAKER_PK_SCRIPT then
      Ok(d.(offer := o.(makerPkScript := v), hasMaker := true))
    else if r.tag == MAKER_PUBLIC_KEY then
      if ParseKey(c, v) == None then Err(InvalidField(r.tag))
      else Ok(d.(offer := o.(makerPublicKey := ParseKey(c, v))))
    else if r.tag == RATIO_NUM then
      if |v| != 8 then Err(InvalidField(r.tag))
      else Ok(d.(offer := o.(ratioNum := Word(v))))
    else if r.tag == RATIO_DEN then
      if |v| != 8 then Err(InvalidField(r.tag))
      else Ok(d.(offer := o.(ratioDen := Word(v))))
    else if r.tag == OFFER_ASSET then
      if c.parseAsset(v) == None then Err(InvalidField(r.tag))
      else Ok(d.(offer := o.(offerAsset := c.parseAsset(v))))
    else if r.tag == INTROSPECTOR_PUBKEY then
      if |v| != 32 || ParseKey(c, v) == None then Err(InvalidField(r.tag))
      else Ok(d.(offer := o.(introspectorPubkey := ParseKey(c, v)), hasIntrospector := true))
    else if r.tag == EXIT_TIMELOCK then
      if |v| != 9 then Err(InvalidField(r.tag))
      else Ok(d.(offer := o.(exitDelay := Some(ParseExit(v)))))
    else Err(UnknownType(r.tag))
  }

  /** The required-field checks after the loop. */
  function Finish(d: Draft): Result<Offer, CodecError>
  {
    if !d.hasSwap then Err(Missing(SWAP_PK_SCRIPT))
    else if !d.hasWant then Err(Missing(WANT_AMOUNT))
    else if !d.hasMaker then Err(Missing(MAKER_PK_SCRIPT))
    else if !d.hasIntrospector then Err(Missing(INTROSPECTOR_PUBKEY))
    else if |d.offer.makerPkScript| != 34 then Err(InvalidField(MAKER_PK_SCRIPT))
    else Ok(d.offer)
  }

  function Fold(c: Codecs, d: Draft, rs: seq<Record>): Result<Draft, CodecError>
    decreases |rs|
  {
    if rs == [] then Ok(d)
    else match Apply(c, d, rs[0])
      case Err(e) => Err(e)
      case Ok(d') => Fold(c, d', rs[1..])
  }

  /** Split into records, fold them in, then check: what the offset loop computes from a draft. */
  function DecodeFrom(c: Codecs, d: Draft, data: bytes): Result<Offer, CodecError>
  {
    var s := SplitRecords(data);
    match Fold(c, d, s.records)
    case Err(e) => Err(e)
    case Ok(d') => if s.cut.Some? then Err(Truncated(s.cut.value)) else Finish(d')
  }

  function Decode(c: Codecs, data: bytes): Result<Offer, CodecError>
  {
    DecodeFrom(c, EMPTY_DRAFT, data)
  }

  lemma DecodeStep(c: Codecs, d: Draft, data: bytes)
    requires |data| >= 3 && 3 + Length(data) <= |data|
    ensures var r := Apply(c, d, Record(data[0], data[3..3 + Length(data)]));
            DecodeFrom(c, d, data)
            == if r.Err? then Err(r.error) else DecodeFrom(c, r.value, data[3 + Length(data)..])
  {
    var r := Record(data[0], data[3..3 + Length(data)]);
    var rest := SplitRecords(data[3 + Length(data)..]);
    assert ([r] + rest.records)[1..] == rest.records;
  }

  /** DeserializeOffer: the offset loop computes the split-then-fold result, errors included. */
  method DeserializeOffer(c: Codecs, data: bytes) returns (r: Result<Offer, CodecError>)
    ensures r == Decode(c, data)
  {
    var draft := EMPTY_DRAFT;
    var offset := 0;
    assert data[0..] == data;
    while offset < |data|
      invariant 0 <= offset <= |data|
      invariant Decode(c, data) == DecodeFrom(c, draft, data[offset..])
      decreases |data| - offset
    {
      ghost var rest := data[offset..];
      if offset + 3 > |data| {
        return Err(Truncated(HeaderCut));
      }
      var tag := data[offset];
      var high: int := data[offset + 1];
      var length := high * 256 + data[offset + 2];
      assert Length(rest) == length;
      offset := offset + 3;
      if offset + length > |data| {
        return Err(Truncated(ValueCut(tag, length, |data| - offset)));
      }
      var value := data[offset..offset + length];
      offset := offset + length;
      assert rest[3..3 + length] == value && rest[3 + length..] == data[offset..];
      DecodeStep(c, draft, rest);
      var next := Apply(c, draft, Record(tag, value));
      if next.Err? {
        return Err(next.error);
      }
      draft := next.value;
    }
    assert data[offset..] == [];
    r := Finish(draft);
  }

  // ---------------------------------------------------------------------------
  // An independent reading of the format: the last record of each type decides.

  predicate ValidRecord(c: Codecs, r: Record)
  {
    if r.tag in {SWAP_PK_SCRIPT, MAKER_PK_SCRIPT} then true
    else if r.tag in {WANT_AMOUNT, CANCEL_DELAY, RATIO_NUM, RATIO_DEN} then |r.value| == 8
    else if r.tag in {WANT_ASSET, OFFER_ASSET} then c.parseAsset(r.value).Some?
    else if r.tag in {MAKER_PUBLIC_KEY, INTROSPECTOR_PUBKEY} then |r.value| == 32 && c.onCurve(r.value)
    else r.tag == EXIT_TIMELOCK && |r.value| == 9
  }

  predicate AllValid(c: Codecs, rs: seq<Record>)
  {
    forall i | 0 <= i < |rs| :: ValidRecord(c, rs[i])
  }

  function LastWord(rs: seq<Record>, tag: byte): u64
  {
    var v := Last(rs, tag);
    if v.Some? && |v.value| == 8 then Word(v.value) else 0
  }

  function LastBytes(rs: seq<Record>, tag: byte): bytes
  {
    var v := Last(rs, tag);
    if v.Some? then v.value else []
  }

  function LastAsset(c: Codecs, rs: seq<Record>, tag: byte): Option<AssetId>
  {
    var v := Last(rs, tag);
    if v.Some? then c.parseAsset(v.value) else None
  }

  function LastKey(rs: seq<Record>, tag: byte): Option<PubKey>
  {
    var v := Last(rs, tag);
    if v.Some? then Some(PubKey(v.value, false)) else None
  }

  function LastExit(rs: seq<Record>): Option<RelativeLocktime>
  {
    var v := Last(rs, EXIT_TIMELOCK);
    if v.Some? && |v.value| == 9 then Some(ParseExit(v.value)) else None
  }

  /** The offer that a list of valid records denotes. */
  function OfferOf(c: Codecs, rs: seq<Record>): Offer
  {
    Offer(
      LastBytes(rs, SWAP_PK_SCRIPT), LastWord(rs, WANT_AMOUNT),
      LastAsset(c, rs, WANT_ASSET), LastAsset(c, rs, OFFER_ASSET),
      LastWord(rs, RATIO_NUM), LastWord(rs, RATIO_DEN), LastWord(rs, CANCEL_DELAY),
      LastBytes(rs, MAKER_PK_SCRIPT), LastKey(rs, MAKER_PUBLIC_KEY),
      LastKey(rs, INTROSPECTOR_PUBKEY), LastExit(rs))
  }

  function DraftOf(c: Codecs, rs: seq<Record>): Draft
  {
    Draft(OfferOf(c, rs),
          Last(rs, SWAP_PK_SCRIPT).Some?, Last(rs, WANT_AMOUNT).Some?,
          Last(rs, MAKER_PK_SCRIPT).Some?, Last(rs, INTROSPECTOR_PUBKEY).Some?)
  }

  /** The record lists that make an offer. */
  predicate Acceptable(c: Codecs, rs: seq<Record>)
  {
    && AllValid(c, rs)
    && Last(rs, SWAP_PK_SCRIPT).Some?
    && Last(rs, WANT_AMOUNT).Some?
    && Last(rs, INTROSPECTOR_PUBKEY).Some?
    && Last(rs, MAKER_PK_SCRIPT).Some?
    && |Last(rs, MAKER_PK_SCRIPT).value| == 34
  }

  lemma {:induction false} FoldSnoc(c: Codecs, d: Draft, rs: seq<Record>, r: Record)
    ensures Fold(c, d, rs + [r])
            == var f := Fold(c, d, rs); if f.Err? then f else Apply(c, f.value, r)
    decreases |rs|
  {
    if rs == [] {
      assert rs + [r] == [r] && [r][1..] == [];
    } else {
      assert (rs + [r])[1..] == rs[1..] + [r];
      if Apply(c, d, rs[0]).Ok? {
        FoldSnoc(c, Apply(c, d, rs[0]).value, rs[1..], r);
      }
    }
  }

  lemma LastSnoc(rs: seq<Record>, r: Record, tag: byte)
    ensures Last(rs + [r], tag) == if r.tag == tag then Some(r.value) else Last(rs, tag)
  {
    assert (rs + [r])[..|rs|] == rs;
  }

  /** A switch turn rejects exactly the invalid records. */
  lemma ApplyOk(c: Codecs, d: Draft, r: Record)
    ensures Apply(c, d, r).Ok? <==> ValidRecord(c, r)
  {
  }

  /** One more record leaves the fields of the other tags alone. */
  lemma OfferOfSnoc(c: Codecs, rs: seq<Record>, r: Record)
    ensures var o, o' := OfferOf(c, rs), OfferOf(c, rs + [r]);
            && o'.swapPkScript == (if r.tag == SWAP_PK_SCRIPT then r.value else o.swapPkScript)
            && o'.makerPkScript == (if r.tag == MAKER_PK_SCRIPT then r.value else o.makerPkScript)
            && (r.tag != WANT_AMOUNT ==> o'.wantAmount == o.wantAmount)
            && (r.tag != WANT_ASSET ==> o'.wantAsset == o.wantAsset)
            && (r.tag != OFFER_ASSET ==> o'.offerAsset == o.offerAsset)
            && (r.tag != RATIO_NUM ==> o'.ratioNum == o.ratioNum)
            && (r.tag != RATIO_DEN ==> o'.ratioDen == o.ratioDen)
            && (r.tag != CANCEL_DELAY ==> o'.cancelAt == o.cancelAt)
            && (r.tag != MAKER_PUBLIC_KEY ==> o'.makerPublicKey == o.makerPublicKey)
            && (r.tag != INTROSPECTOR_PUBKEY ==> o'.introspectorPubkey == o.introspectorPubkey)
            && (r.tag != EXIT_TIMELOCK ==> o'.exitDelay == o.exitDelay)
  {
    LastSnoc(rs, r, SWAP_PK_SCRIPT);
    LastSnoc(rs, r, WANT_AMOUNT);
    LastSnoc(rs, r, WANT_ASSET);
    LastSnoc(rs, r, OFFER_ASSET);
    LastSnoc(rs, r, RATIO_NUM);
    LastSnoc(rs, r, RATIO_DEN);
    LastSnoc(rs, r, CANCEL_DELAY);
    LastSnoc(rs, r, MAKER_PK_SCRIPT);
    LastSnoc(rs, r, MAKER_PUBLIC_KEY);
    LastSnoc(rs, r, INTROSPECTOR_PUBKEY);
    LastSnoc(rs, r, EXIT_TIMELOCK);
  }

  /** A switch turn overwrites the field of its tag and keeps the others. */
  lemma ApplyDraftOf(c: Codecs, rs: seq<Record>, r: Record)
    requires ValidRecord(c, r)
    ensures Apply(c, DraftOf(c, rs), r) == Ok(DraftOf(c, rs + [r]))
  {
    OfferOfSnoc(c, rs, r);
    LastSnoc(rs, r, r.tag);
    LastSnoc(rs, r, SWAP_PK_SCRIPT);
    LastSnoc(rs, r, WANT_AMOUNT);
    LastSnoc(rs, r, MAKER_PK_SCRIPT);
    LastSnoc(rs, r, INTROSPECTOR_PUBKEY);
  }

  lemma {:induction false} FoldIsLast(c: Codecs, rs: seq<Record>)
    ensures Fold(c, EMPTY_DRAFT, rs).Ok? <==> AllValid(c, rs)
    ensures AllValid(c, rs) ==> Fold(c, EMPTY_DRAFT, rs) == Ok(DraftOf(c, rs))
  {
    if rs == [] {
      assert DraftOf(c, rs) == EMPTY_DRAFT;
    } else {
      var front, r := rs[..|rs| - 1], rs[|rs| - 1];
      assert rs == front + [r];
      FoldIsLast(c, front);
      FoldSnoc(c, EMPTY_DRAFT, front, r);
      if AllValid(c, front) {
        ApplyOk(c, DraftOf(c, front), r);
        if ValidRecord(c, r) {
          ApplyDraftOf(c, front, r);
        }
      }
    }
  }

  /**
   * Bytes are accepted exactly when they split into whole, individually valid records that
   * supply the required types; the result is then read off the last record of each type.
   */
  lemma AcceptedIff(c: Codecs, data: bytes)
    ensures var s := SplitRecords(data);
            && (Decode(c, data).Ok? <==> s.cut == None && Acceptable(c, s.records))
            && (Decode(c, data).Ok? ==> Decode(c, data).value == OfferOf(c, s.records))
  {
    FoldIsLast(c, SplitRecords(data).records);
  }

  /** A fold that failed on a prefix fails on the whole with the same error. */
  lemma {:induction false} FoldFails(c: Codecs, rs: seq<Record>, n: nat)
    requires n <= |rs| && Fold(c, EMPTY_DRAFT, rs[..n]).Err?
    ensures Fold(c, EMPTY_DRAFT, rs) == Fold(c, EMPTY_DRAFT, rs[..n])
    decreases |rs| - n
  {
    if n == |rs| {
      assert rs[..n] == rs;
    } else {
      assert rs[..n + 1] == rs[..n] + [rs[n]];
      FoldSnoc(c, EMPTY_DRAFT, rs[..n], rs[n]);
      FoldFails(c, rs, n + 1);
    }
  }

  /** The first invalid record gives the error: an unknown type, or an invalid field of a known one. */
  lemma FirstInvalid(c: Codecs, rs: seq<Record>, i: nat)
    requires i < |rs| && AllValid(c, rs[..i]) && !ValidRecord(c, rs[i])
    ensures Fold(c, EMPTY_DRAFT, rs)
            == Err(if rs[i].tag in {1, 2, 3, 4, 5, 7, 8, 9, 10, 11, 12} then InvalidField(rs[i].tag)
                   else UnknownType(rs[i].tag))
  {
    FoldIsLast(c, rs[..i]);
    FoldSnoc(c, EMPTY_DRAFT, rs[..i], rs[i]);
    assert rs[..i + 1] == rs[..i] + [rs[i]];
    FoldFails(c, rs, i + 1);
  }

  /**
   * Why bytes are rejected: the first invalid record decides; without one, a cut; without that, the
   * first missing type among 1, 2, 5 and 8, and last a maker script that is not 34 bytes long.
   */
  lemma RejectedWhy(c: Codecs, data: bytes)
    ensures var s, r := SplitRecords(data), Decode(c, data);
            var rs := s.records;
            && (forall i | 0 <= i < |rs| && AllValid(c, rs[..i]) && !ValidRecord(c, rs[i]) ::
                  r == Err(if rs[i].tag in {1, 2, 3, 4, 5, 7, 8, 9, 10, 11, 12} then InvalidField(rs[i].tag)
                           else UnknownType(rs[i].tag)))
            && (AllValid(c, rs) && s.cut.Some? ==> r == Err(Truncated(s.cut.value)))
            && (AllValid(c, rs) && s.cut == None && !Acceptable(c, rs) ==>
                  r == Err(if Last(rs, 1) == None then Missing(1) else if Last(rs, 2) == None then Missing(2)
                           else if Last(rs, 5) == None then Missing(5) else if Last(rs, 8) == None then Missing(8)
                           else InvalidField(5)))
  {
    var rs := SplitRecords(data).records;
    FoldIsLast(c, rs);
    forall i | 0 <= i < |rs| && AllValid(c, rs[..i]) && !ValidRecord(c, rs[i])
      ensures Fold(c, EMPTY_DRAFT, rs) == Err(if rs[i].tag in {1, 2, 3, 4, 5, 7, 8, 9, 10, 11, 12} then InvalidField(rs[i].tag)
                                              else UnknownType(rs[i].tag))
    {
      FirstInvalid(c, rs, i);
    }
  }

  /** Records of pairwise distinct types may come in any order. */
  lemma OrderIrrelevant(c: Codecs, a: seq<Record>, b: seq<Record>)
    requires multiset(a) == multiset(b) && DistinctTags(a) && DistinctTags(b)
    requires forall r | r in a :: Fits(r)
    ensures Decode(c, EncodeAll(a)).Ok? == Decode(c, EncodeAll(b)).Ok?
    ensures Decode(c, EncodeAll(a)).Ok? ==> Decode(c, EncodeAll(a)) == Decode(c, EncodeAll(b))
  {
    assert forall r :: r in a <==> r in multiset(a);
    assert forall r :: r in b <==> r in multiset(b);
    SplitWhole(a);
    SplitWhole(b);
    AcceptedIff(c, EncodeAll(a));
    AcceptedIff(c, EncodeAll(b));
    assert AllValid(c, a) == AllValid(c, b) by {
      if AllValid(c, a) { ValidPermutation(c, a, b); }
      if AllValid(c, b) { ValidPermutation(c, b, a); }
    }
    DraftPermutation(c, a, b);
  }

  lemma DraftPermutation(c: Codecs, a: seq<Record>, b: seq<Record>)
    requires multiset(a) == multiset(b) && DistinctTags(a) && DistinctTags(b)
    ensures DraftOf(c, a) == DraftOf(c, b)
    ensures Last(a, MAKER_PK_SCRIPT) == Last(b, MAKER_PK_SCRIPT)
  {
    LastsAgree(a, b);
  }

  lemma LastsAgree(a: seq<Record>, b: seq<Record>)
    requires multiset(a) == multiset(b) && DistinctTags(a) && DistinctTags(b)
    ensures forall t: byte :: Last(a, t) == Last(b, t)
  {
    forall t: byte ensures Last(a, t) == Last(b, t) {
      LastPermutation(a, b, t);
    }
  }

  lemma ValidPermutation(c: Codecs, a: seq<Record>, b: seq<Record>)
    requires multiset(a) == multiset(b) && AllValid(c, a)
    ensures AllValid(c, b)
  {
    forall i | 0 <= i < |b| ensures ValidRecord(c, b[i]) {
      assert b[i] in multiset(a);
    }
  }

  lemma SplitWhole(rs: seq<Record>)
    requires forall r | r in rs :: Fits(r)
    ensures SplitRecords(EncodeAll(rs)) == Split(rs, None)
  {
    SplitEncodeAll(rs, []);
    assert EncodeAll(rs) + [] == EncodeAll(rs);
    assert rs + [] == rs;
  }
}

/** Offer.Serialize of pkg/contract/offer.go, and what printing and parsing do to each other. */
module OfferPrinter {
  import opened Base
  import opened Tlv
  import opened Offers
  import opened OfferCodec

  /** One potential record of the printed offer; None means the field is left out. */
  datatype Field = Field(tag: byte, value: Option<bytes>)

  predicate Printable(c: Codecs, o: Offer)
  {
    && (o.wantAsset.Some? ==> c.printAsset(o.wantAsset.value).Some?)
    && (o.offerAsset.Some? ==> c.printAsset(o.offerAsset.value).Some?)
  }

  function AssetField(c: Codecs, a: Option<AssetId>): Option<bytes>
  {
    if a.Some? then c.printAsset(a.value) else None
  }

  function WordField(n: u64): Option<bytes>
  {
    if n > 0 then Some(BigEndian(n, 8)) else None
  }

  function KeyField(k: Option<PubKey>): Option<bytes>
  {
    if k.Some? then Some(k.value.x) else None
  }

  function ExitField(e: Option<RelativeLocktime>): Option<bytes>
  {
    if e.Some? then Some(PrintExit(e.value)) else None
  }

  /** The fields in wire order. */
  function Fields(c: Codecs, o: Offer): seq<Field>
  {
    [Field(SWAP_PK_SCRIPT, Some(o.swapPkScript)),
     Field(WANT_AMOUNT, Some(BigEndian(o.wantAmount, 8))),
     Field(WANT_ASSET, AssetField(c, o.wantAsset)),
     Field(RATIO_NUM, WordField(o.ratioNum)),
     Field(RATIO_DEN, WordField(o.ratioDen)),
     Field(OFFER_ASSET, AssetField(c, o.offerAsset)),
     Field(CANCEL_DELAY, WordField(o.cancelAt)),
     Field(MAKER_PK_SCRIPT, Some(o.makerPkScript)),
     Field(MAKER_PUBLIC_KEY, KeyField(o.makerPublicKey)),
     Field(INTROSPECTOR_PUBKEY, KeyField(o.introspectorPubkey)),
     Field(EXIT_TIMELOCK, ExitField(o.exitDelay))]
  }

  /** The records of the fields that are present. */
  function Emit(fs: seq<Field>): seq<Record>
  {
    if fs == [] then []
    else
      var f := fs[|fs| - 1];
      Emit(fs[..|fs| - 1]) + if f.value.Some? then [Record(f.tag, f.value.value)] else []
  }

  function Print(c: Codecs, o: Offer): Result<bytes, CodecError>
  {
    if o.wantAsset.Some? && c.printAsset(o.wantAsset.value) == None then Err(UnprintableAsset(WANT_ASSET))
    else if o.offerAsset.Some? && c.printAsset(o.offerAsset.value) == None then Err(UnprintableAsset(OFFER_ASSET))
    else Ok(EncodeAll(Emit(Fields(c, o))))
  }

  // ---------------------------------------------------------------------------
  // The imperative printer.

  /** The bytes of one field. */
  function Piece(f: Field): bytes
  {
    if f.value.Some? then Encode(Record(f.tag, f.value.value)) else []
  }

  /** The bytes of the first k fields. */
  function Printed(fs: seq<Field>, k: nat): bytes
    requires k <= |fs|
  {
    if k == 0 then [] else Printed(fs, k - 1) + Piece(fs[k - 1])
  }

  lemma {:induction false} PrintedIsEncoded(fs: seq<Field>, k: nat)
    requires k <= |fs|
    ensures Printed(fs, k) == EncodeAll(Emit(fs[..k]))
  {
    if k > 0 {
      PrintedIsEncoded(fs, k - 1);
      assert fs[..k][..k - 1] == fs[..k - 1];
      var f := fs[k - 1];
      if f.value.Some? {
        var rs := Emit(fs[..k - 1]) + [Record(f.tag, f.value.value)];
        assert rs[..|rs| - 1] == Emit(fs[..k - 1]);
      } else {
        assert Emit(fs[..k]) == Emit(fs[..k - 1]);
      }
    }
  }

  /** The field list of an offer, element by element, and the bytes it stands for. */
  lemma FieldList(c: Codecs, o: Offer) returns (fs: seq<Field>)
    ensures |fs| == 11
    ensures fs[0] == Field(SWAP_PK_SCRIPT, Some(o.swapPkScript))
    ensures fs[1] == Field(WANT_AMOUNT, Some(BigEndian(o.wantAmount, 8)))
    ensures fs[2] == Field(WANT_ASSET, AssetField(c, o.wantAsset))
    ensures fs[3] == Field(RATIO_NUM, WordField(o.ratioNum))
    ensures fs[4] == Field(RATIO_DEN, WordField(o.ratioDen))
    ensures fs[5] == Field(OFFER_ASSET, AssetField(c, o.offerAsset))
    ensures fs[6] == Field(CANCEL_DELAY, WordField(o.cancelAt))
    ensures fs[7] == Field(MAKER_PK_SCRIPT, Some(o.makerPkScript))
    ensures fs[8] == Field(MAKER_PUBLIC_KEY, KeyField(o.makerPublicKey))
    ensures fs[9] == Field(INTROSPECTOR_PUBKEY, KeyField(o.introspectorPubkey))
    ensures fs[10] == Field(EXIT_TIMELOCK, ExitField(o.exitDelay))
    ensures Printable(c, o) ==> Print(c, o) == Ok(Printed(fs, 11))
  {
    fs := Fields(c, o);
    PrintedIsEncoded(fs, 11);
    assert fs[..11] == fs;
  }

  /** The output buffer; each writer appends the next field of a field list. */
  class Buffer {
    var data: bytes

    constructor ()
      ensures data == []
    {
      data := [];
    }

    /** encodeTLV: a type byte, a 16-bit length and the value are appended. */
    method EncodeTlv(tag: byte, value: bytes)
      modifies this
      ensures data == old(data) + Encode(Record(tag, value))
    {
      data := data + [tag];
      data := data + BigEndian(|value| % TWO16, 2);
      data := data + value;
    }

    method PutBytes(tag: byte, v: bytes, ghost fs: seq<Field>, ghost k: nat)
      requires k < |fs| && fs[k] == Field(tag, Some(v)) && data == Printed(fs, k)
      modifies this
      ensures data == Printed(fs, k + 1)
    {
      EncodeTlv(tag, v);
    }

    method PutAsset(c: Codecs, tag: byte, a: Option<AssetId>, ghost fs: seq<Field>, ghost k: nat)
      returns (ok: bool)
      requires k < |fs| && fs[k] == Field(tag, AssetField(c, a)) && data == Printed(fs, k)
      modifies this
      ensures ok <==> (a.Some? ==> c.printAsset(a.value).Some?)
      ensures ok ==> data == Printed(fs, k + 1)
    {
      ok := true;
      if a.Some? {
        var v := c.printAsset(a.value);
        if v == None {
          return false;
        }
        EncodeTlv(tag, v.value);
      }
    }

    method PutWord(tag: byte, n: u64, ghost fs: seq<Field>, ghost k: nat)
      requires k < |fs| && fs[k] == Field(tag, WordField(n)) && data == Printed(fs, k)
      modifies this
      ensures data == Printed(fs, k + 1)
    {
      if n > 0 {
        EncodeTlv(tag, BigEndian(n, 8));
      }
    }

    method PutKey(tag: byte, key: Option<PubKey>, ghost fs: seq<Field>, ghost k: nat)
      requires k < |fs| && fs[k] == Field(tag, KeyField(key)) && data == Printed(fs, k)
      modifies this
      ensures data == Printed(fs, k + 1)
    {
      if key.Some? {
        EncodeTlv(tag, key.value.x);
      }
    }

    method PutExit(e: Option<RelativeLocktime>, ghost fs: seq<Field>, ghost k: nat)
      requires k < |fs| && fs[k] == Field(EXIT_TIMELOCK, ExitField(e)) && data == Printed(fs, k)
      modifies this
      ensures data == Printed(fs, k + 1)
    {
      if e.Some? {
        var exit := [if e.value.kind.Second? then 1 else 0];
        exit := exit + BigEndian(e.value.value, 8);
        EncodeTlv(EXIT_TIMELOCK, exit);
      }
    }
  }

  /** Offer.Serialize: the buffer ends up holding the printed offer, or an asset fails to print. */
  method Serialize(c: Codecs, o: Offer) returns (r: Result<bytes, CodecError>)
    ensures r == Print(c, o)
  {
    ghost var fs := FieldList(c, o);
    var buf := new Buffer();
    buf.PutBytes(SWAP_PK_SCRIPT, o.swapPkScript, fs, 0);
    buf.PutBytes(WANT_AMOUNT, BigEndian(o.wantAmount, 8), fs, 1);
    var ok := buf.PutAsset(c, WANT_ASSET, o.wantAsset, fs, 2);
    if !ok {
      return Err(UnprintableAsset(WANT_ASSET));
    }
    buf.PutWord(RATIO_NUM, o.ratioNum, fs, 3);
    buf.PutWord(RATIO_DEN, o.ratioDen, fs, 4);
    ok := buf.PutAsset(c, OFFER_ASSET, o.offerAsset, fs, 5);
    if !ok {
      return Err(UnprintableAsset(OFFER_ASSET));
    }
    buf.PutWord(CANCEL_DELAY, o.cancelAt, fs, 6);
    buf.PutBytes(MAKER_PK_SCRIPT, o.makerPkScript, fs, 7);
    buf.PutKey(MAKER_PUBLIC_KEY, o.makerPublicKey, fs, 8);
    buf.PutKey(INTROSPECTOR_PUBKEY, o.introspectorPubkey, fs, 9);
    buf.PutExit(o.exitDelay, fs, 10);
    r := Ok(buf.data);
  }

  // ---------------------------------------------------------------------------
  // Round trip.

  predicate DistinctFields(fs: seq<Field>)
  {
    forall i, j | 0 <= i < j < |fs| :: fs[i].tag != fs[j].tag
  }

  lemma {:induction false} EmitMembers(fs: seq<Field>, r: Record)
    ensures r in Emit(fs) <==> exists i | 0 <= i < |fs| :: fs[i] == Field(r.tag, Some(r.value))
  {
    if fs != [] {
      var front := fs[..|fs| - 1];
      EmitMembers(front, r);
      assert forall i | 0 <= i < |front| :: front[i] == fs[i];
      if r in Emit(front) {
        var i :| 0 <= i < |front| && front[i] == Field(r.tag, Some(r.value));
        assert fs[i] == Field(r.tag, Some(r.value));
      }
      if i :| 0 <= i < |fs| && fs[i] == Field(r.tag, Some(r.value)) {
        if i < |front| {
          assert front[i] == Field(r.tag, Some(r.value));
        }
      }
    }
  }

  /** One more field decides its own tag if it is present, and no other. */
  lemma LastEmitStep(fs: seq<Field>, tag: byte)
    requires fs != []
    ensures var f := fs[|fs| - 1];
            Last(Emit(fs), tag)
            == if f.tag == tag && f.value.Some? then f.value else Last(Emit(fs[..|fs| - 1]), tag)
  {
    var f := fs[|fs| - 1];
    if f.value.Some? {
      LastSnoc(Emit(fs[..|fs| - 1]), Record(f.tag, f.value.value), tag);
    } else {
      assert Emit(fs) == Emit(fs[..|fs| - 1]);
    }
  }

  lemma {:induction false} LastEmitAbsent(fs: seq<Field>, tag: byte)
    requires forall i | 0 <= i < |fs| :: fs[i].tag != tag
    ensures Last(Emit(fs), tag) == None
  {
    if fs != [] {
      LastEmitStep(fs, tag);
      LastEmitAbsent(fs[..|fs| - 1], tag);
    }
  }

  /** With distinct tags, the last printed value of a field's tag is that field's value. */
  lemma {:induction false} LastEmit(fs: seq<Field>, i: nat)
    requires DistinctFields(fs) && i < |fs|
    ensures Last(Emit(fs), fs[i].tag) == fs[i].value
    decreases |fs|
  {
    var n := |fs| - 1;
    LastEmitStep(fs, fs[i].tag);
    if i < n {
      LastEmit(fs[..n], i);
    } else {
      LastEmitAbsent(fs[..n], fs[i].tag);
    }
  }

  lemma ExitRoundTrip(e: RelativeLocktime)
    ensures ParseExit(PrintExit(e)) == e
  {
    var v := PrintExit(e);
    assert v[1..] == BigEndian(e.value, 8);
    Word64(e.value);
  }

  /** Every field of a well-formed offer is a valid record that fits its length word. */
  lemma FieldsValid(c: Codecs, o: Offer, i: nat)
    requires WellFormed(c, o) && i < |Fields(c, o)| && Fields(c, o)[i].value.Some?
    ensures var f := Fields(c, o)[i];
            ValidRecord(c, Record(f.tag, f.value.value)) && |f.value.value| < TWO16
  {
  }

  lemma EmitValid(c: Codecs, o: Offer)
    requires WellFormed(c, o)
    ensures AllValid(c, Emit(Fields(c, o)))
    ensures forall r | r in Emit(Fields(c, o)) :: Fits(r)
  {
    var fs := Fields(c, o);
    forall r | r in Emit(fs) ensures ValidRecord(c, r) && Fits(r) {
      EmitMembers(fs, r);
      var i :| 0 <= i < |fs| && fs[i] == Field(r.tag, Some(r.value));
      FieldsValid(c, o, i);
    }
  }

  lemma FieldsDistinct(c: Codecs, o: Offer)
    ensures |Fields(c, o)| == 11 && DistinctFields(Fields(c, o))
  {
  }

  lemma LastFields(c: Codecs, o: Offer)
    ensures var rs := Emit(Fields(c, o));
            && Last(rs, SWAP_PK_SCRIPT) == Some(o.swapPkScript)
            && Last(rs, WANT_AMOUNT) == Some(BigEndian(o.wantAmount, 8))
            && Last(rs, WANT_ASSET) == AssetField(c, o.wantAsset)
            && Last(rs, RATIO_NUM) == WordField(o.ratioNum)
            && Last(rs, RATIO_DEN) == WordField(o.ratioDen)
            && Last(rs, OFFER_ASSET) == AssetField(c, o.offerAsset)
            && Last(rs, CANCEL_DELAY) == WordField(o.cancelAt)
            && Last(rs, MAKER_PK_SCRIPT) == Some(o.makerPkScript)
            && Last(rs, MAKER_PUBLIC_KEY) == KeyField(o.makerPublicKey)
            && Last(rs, INTROSPECTOR_PUBKEY) == KeyField(o.introspectorPubkey)
            && Last(rs, EXIT_TIMELOCK) == ExitField(o.exitDelay)
  {
    var fs := Fields(c, o);
    FieldsDistinct(c, o);
    LastEmit(fs, 0); LastEmit(fs, 1); LastEmit(fs, 2); LastEmit(fs, 3);
    LastEmit(fs, 4); LastEmit(fs, 5); LastEmit(fs, 6); LastEmit(fs, 7);
    LastEmit(fs, 8); LastEmit(fs, 9); LastEmit(fs, 10);
  }

  /** The records of a well-formed offer denote that offer. */
  lemma OfferOfFields(c: Codecs, o: Offer)
    requires WellFormed(c, o)
    ensures OfferOf(c, Emit(Fields(c, o))) == o
  {
    LastFields(c, o);
    Word64(o.wantAmount);
    Word64(o.ratioNum);
    Word64(o.ratioDen);
    Word64(o.cancelAt);
    if o.exitDelay.Some? {
      ExitRoundTrip(o.exitDelay.value);
    }
  }

  /** Parsing undoes printing on every well-formed offer. */
  lemma PrintThenDecode(c: Codecs, o: Offer)
    requires WellFormed(c, o)
    ensures Print(c, o).Ok? && Decode(c, Print(c, o).value) == Ok(o)
  {
    var rs := Emit(Fields(c, o));
    EmitValid(c, o);
    SplitWhole(rs);
    AcceptedIff(c, EncodeAll(rs));
    LastFields(c, o);
    OfferOfFields(c, o);
  }

  /** Every offer the parser accepts is well formed. */
  lemma AcceptedWellFormed(c: Codecs, data: bytes)
    requires Lawful(c) && Decode(c, data).Ok?
    ensures WellFormed(c, Decode(c, data).value)
  {
    hide Decode, SplitRecords, Last;
    var rs := SplitRecords(data).records;
    AcceptedIff(c, data);
    SplitFits(data);
    LastValid(c, rs, SWAP_PK_SCRIPT);
    LastValid(c, rs, INTROSPECTOR_PUBKEY);
    LastValid(c, rs, MAKER_PUBLIC_KEY);
    LastValid(c, rs, WANT_ASSET);
    LastValid(c, rs, OFFER_ASSET);
  }

  /** The last record of a type is one of the records. */
  lemma LastValid(c: Codecs, rs: seq<Record>, tag: byte)
    requires AllValid(c, rs) && forall r | r in rs :: Fits(r)
    ensures Last(rs, tag).Some? ==>
              ValidRecord(c, Record(tag, Last(rs, tag).value)) && |Last(rs, tag).value| < TWO16
  {
    hide Last;
    LastIsRecord(rs, tag);
  }

  lemma {:induction false} LastIsRecord(rs: seq<Record>, tag: byte)
    ensures Last(rs, tag).Some? ==> Record(tag, Last(rs, tag).value) in rs
  {
    if rs != [] && rs[|rs| - 1].tag != tag {
      LastIsRecord(rs[..|rs| - 1], tag);
    }
  }

  /** Round trip, in its exact form: printing then parsing gives the offer back iff it is well formed. */
  lemma RoundTripIff(c: Codecs, o: Offer)
    requires Lawful(c)
    ensures (Print(c, o).Ok? && Decode(c, Print(c, o).value) == Ok(o)) <==> WellFormed(c, o)
  {
    if WellFormed(c, o) {
      PrintThenDecode(c, o);
    }
    if Print(c, o).Ok? && Decode(c, Print(c, o).value) == Ok(o) {
      AcceptedWellFormed(c, Print(c, o).value);
    }
  }

  /** A key of either parity crosses the wire as its x coordinate and comes back even. */
  lemma RoundTripLiftsKeys(c: Codecs, o: Offer)
    requires WellFormed(c, EvenKeys(o))
    ensures Print(c, o).Ok? && Decode(c, Print(c, o).value) == Ok(EvenKeys(o))
  {
    assert Fields(c, o) == Fields(c, EvenKeys(o));
    PrintThenDecode(c, EvenKeys(o));
  }

  /** Two well-formed offers with the same bytes are the same offer. */
  lemma PrintInjective(c: Codecs, a: Offer, b: Offer)
    requires WellFormed(c, a) && WellFormed(c, b) && Print(c, a) == Print(c, b)
    ensures a == b
  {
    PrintThenDecode(c, a);
    PrintThenDecode(c, b);
  }

  /** Normalisation: re-printing whatever was accepted, and parsing again, changes nothing. */
  lemma Normalisation(c: Codecs, data: bytes)
    requires Lawful(c) && Decode(c, data).Ok?
    ensures var o := Decode(c, data).value;
            Print(c, o).Ok? && Decode(c, Print(c, o).value) == Ok(o)
  {
    AcceptedWellFormed(c, data);
    PrintThenDecode(c, Decode(c, data).value);
  }

  // ---------------------------------------------------------------------------
  // Truncation.

  /** The introspector record closes the offer, up to an optional exit record. */
  lemma EmitTail(c: Codecs, o: Offer) returns (front: seq<Record>)
    requires o.introspectorPubkey.Some?
    ensures Last(front, INTROSPECTOR_PUBKEY) == None
    ensures Emit(Fields(c, o.(exitDelay := None)))
            == front + [Record(INTROSPECTOR_PUBKEY, o.introspectorPubkey.value.x)]
    ensures Emit(Fields(c, o))
            == Emit(Fields(c, o.(exitDelay := None)))
               + if o.exitDelay.Some? then [Record(EXIT_TIMELOCK, PrintExit(o.exitDelay.value))] else []
  {
    var fs, fs' := Fields(c, o), Fields(c, o.(exitDelay := None));
    front := Emit(fs[..9]);
    assert fs[..10] == fs'[..10] && fs[..10][..9] == fs[..9];
    LastNone(front, INTROSPECTOR_PUBKEY);
    forall r | r in front ensures r.tag != INTROSPECTOR_PUBKEY {
      EmitMembers(fs[..9], r);
      FieldsDistinct(c, o);
    }
  }

  /** A strict prefix either lacks the introspector record, or lost exactly the exit record. */
  lemma PrefixRecords(c: Codecs, o: Offer, n: nat)
    requires WellFormed(c, o) && n < |EncodeAll(Emit(Fields(c, o)))|
    ensures var p := EncodeAll(Emit(Fields(c, o)))[..n];
            var s, bare := SplitRecords(p), Emit(Fields(c, o.(exitDelay := None)));
            || Last(s.records, INTROSPECTOR_PUBKEY) == None
            || (o.exitDelay.Some? && (s.cut == None ==> p == EncodeAll(bare)))
  {
    var rs := Emit(Fields(c, o));
    EmitValid(c, o);
    var front := EmitTail(c, o);
    var k := SplitPrefix(rs, n);
    if k <= |front| {
      assert rs[..k] == front[..k];
      LastNone(front, INTROSPECTOR_PUBKEY);
      LastNone(rs[..k], INTROSPECTOR_PUBKEY);
    } else {
      assert rs[..k] == Emit(Fields(c, o.(exitDelay := None)));
    }
  }

  /**
   * Truncation: a strict prefix of a well-formed offer's bytes is accepted iff the offer has an
   * exit delay and the prefix is the printed form of the same offer without it.
   */
  lemma TruncationIff(c: Codecs, o: Offer, data: bytes, n: nat)
    requires WellFormed(c, o) && Print(c, o) == Ok(data) && n < |data|
    ensures var bare := o.(exitDelay := None);
            && (Decode(c, data[..n]).Ok? <==> o.exitDelay.Some? && Print(c, bare) == Ok(data[..n]))
            && (Decode(c, data[..n]).Ok? ==> Decode(c, data[..n]) == Ok(bare))
  {
    PrintThenDecode(c, o.(exitDelay := None));
    PrefixRecords(c, o, n);
    AcceptedIff(c, data[..n]);
  }
}

/** The offer's wire format in literal bytes, apart from the codec (pkg/contract/offer.go:22-34). */
module WireFormat {
  import opened Base
  import opened Tlv
  import opened Offers
  import opened OfferCodec
  import opened OfferPrinter

  /** One record: type, high and low byte of the length, value. */
  function Item(kind: byte, value: bytes): bytes
    requires |value| < 0x1_0000
  {
    [kind, |value| / 256, |value| % 256] + value
  }

  /** A record that may be absent. */
  function Maybe(kind: byte, value: Option<bytes>): bytes
    requires value.Some? ==> |value.value| < 0x1_0000
  {
    if value.Some? then Item(kind, value.value) else []
  }

  /** An eight-byte word, most significant byte first. */
  function WordBytes(n: u64): (w: bytes)
    ensures |w| == 8
  {
    var n1: nat := n / 256;
    var n2, n3 := n1 / 256, n1 / 256 / 256;
    var n4, n5 := n3 / 256, n3 / 256 / 256;
    var n6, n7 := n5 / 256, n5 / 256 / 256;
    [n7, n6 % 256, n5 % 256, n4 % 256, n3 % 256, n2 % 256, n1 % 256, n % 256]
  }

  function WordValue(w: bytes): int
    requires |w| == 8
  {
    (w[0] as int) * 0x100_0000_0000_0000 + (w[1] as int) * 0x1_0000_0000_0000 + (w[2] as int) * 0x100_0000_0000
    + (w[3] as int) * 0x1_0000_0000 + (w[4] as int) * 0x100_0000 + (w[5] as int) * 0x1_0000 + (w[6] as int) * 0x100
    + w[7] as int
  }

  /** The raw values of the eleven record types; None is a record that is not there. */
  datatype Values = Values(
    swap: bytes, want: bytes, wantAsset: Option<bytes>, ratioNum: Option<bytes>, ratioDen: Option<bytes>,
    offerAsset: Option<bytes>, cancel: Option<bytes>, maker: bytes, makerKey: Option<bytes>, introspector: bytes,
    exit: Option<bytes>)

  predicate Sized(v: Option<bytes>, n: nat) { v.Some? ==> |v.value| == n }

  predicate AssetValue(c: Codecs, v: Option<bytes>)
  {
    v.Some? ==> |v.value| < 0x1_0000 && c.parseAsset(v.value).Some?
  }

  /** Values that a parser must accept: the sizes of the format, asset IDs that parse, keys on the curve. */
  predicate Sensible(c: Codecs, v: Values)
  {
    && |v.swap| < 0x1_0000 && |v.want| == 8 && |v.maker| == 34 && |v.introspector| == 32 && c.onCurve(v.introspector)
    && Sized(v.ratioNum, 8) && Sized(v.ratioDen, 8) && Sized(v.cancel, 8) && Sized(v.exit, 9) && Sized(v.makerKey, 32)
    && (v.makerKey.Some? ==> c.onCurve(v.makerKey.value))
    && AssetValue(c, v.wantAsset) && AssetValue(c, v.offerAsset)
  }

  /** The bytes of an offer, in the order in which it is printed. */
  function Wire(c: Codecs, v: Values): bytes
    requires Sensible(c, v)
  {
    Item(0x01, v.swap) + Item(0x02, v.want) + Maybe(0x03, v.wantAsset) + Maybe(0x09, v.ratioNum)
    + Maybe(0x0a, v.ratioDen) + Maybe(0x0b, v.offerAsset) + Maybe(0x04, v.cancel) + Item(0x05, v.maker)
    + Maybe(0x07, v.makerKey) + Item(0x08, v.introspector) + Maybe(0x0c, v.exit)
  }

  function AssetIn(c: Codecs, v: Option<bytes>): Option<AssetId>
  {
    if v.Some? then c.parseAsset(v.value) else None
  }

  function WordIn(v: Option<bytes>): int
    requires Sized(v, 8)
  {
    if v.Some? then WordValue(v.value) else 0
  }

  /** Type byte 1 is seconds and any other is blocks; the delay keeps its low 32 bits. */
  predicate ExitIn(v: Option<bytes>, e: Option<RelativeLocktime>)
    requires Sized(v, 9)
  {
    if v == None then e == None
    else
      && e.Some?
      && (e.value.kind == Second <==> v.value[0] == 1)
      && e.value.value == WordValue(v.value[1..]) % 0x1_0000_0000
  }

  /** The offer that the values spell. */
  predicate Spells(c: Codecs, v: Values, o: Offer)
    requires Sensible(c, v)
  {
    && o.swapPkScript == v.swap && o.makerPkScript == v.maker && o.wantAmount == WordValue(v.want)
    && o.wantAsset == AssetIn(c, v.wantAsset) && o.offerAsset == AssetIn(c, v.offerAsset)
    && o.ratioNum == WordIn(v.ratioNum) && o.ratioDen == WordIn(v.ratioDen) && o.cancelAt == WordIn(v.cancel)
    && o.makerPublicKey == (if v.makerKey.Some? then Some(PubKey(v.makerKey.value, false)) else None)
    && o.introspectorPubkey == Some(PubKey(v.introspector, false))
    && ExitIn(v.exit, o.exitDelay)
  }

  // ---------------------------------------------------------------------------
  // Words.

  /** One byte of a big-endian word. */
  lemma TakeByte(b: bytes)
    requires b != []
    ensures FromBigEndian(b) == FromBigEndian(b[..|b| - 1]) * 256 + b[|b| - 1]
  {
  }

  lemma WordIsValue(w: bytes)
    requires |w| == 8
    ensures FromBigEndian(w) == WordValue(w)
  {
    var w4 := w[..4];
    assert w[..7][..6] == w[..6] && w[..6][..5] == w[..5] && w[..5][..4] == w4;
    TakeByte(w); TakeByte(w[..7]); TakeByte(w[..6]); TakeByte(w[..5]);
    assert w4[..3][..2] == w4[..2] && w4[..2][..1] == w4[..1];
    TakeByte(w4); TakeByte(w4[..3]); TakeByte(w4[..2]); TakeByte(w4[..1]);
    assert w4[..1][..0] == [];
  }

  lemma WordBytesValue(n: u64)
    ensures WordValue(WordBytes(n)) == n
  {
  }

  /** A big-endian word is determined by its value, so PutUint64 writes these bytes. */
  lemma PutsWordBytes(n: u64)
    ensures BigEndian(n, 8) == WordBytes(n)
  {
    Word64(n);
    WordBytesValue(n);
    WordIsValue(WordBytes(n));
    SameWord(BigEndian(n, 8), WordBytes(n));
  }

  lemma {:induction false} SameWord(a: bytes, b: bytes)
    requires |a| == |b| && FromBigEndian(a) == FromBigEndian(b)
    ensures a == b
    decreases |a|
  {
    if a != [] {
      var n := |a| - 1;
      SameWord(a[..n], b[..n]);
      assert a == a[..n] + [a[n]] && b == b[..n] + [b[n]];
    }
  }

  // ---------------------------------------------------------------------------
  // Records.

  lemma ItemIsRecord(kind: byte, value: bytes)
    requires |value| < 0x1_0000
    ensures Encode(Record(kind, value)) == Item(kind, value)
  {
    var d := Item(kind, value);
    assert d[3..] == value;
    EncodeFront(d);
  }

  /** The values as a field list with literal types. */
  function FieldsOf(v: Values): (fs: seq<Field>)
    ensures |fs| == 11 && DistinctFields(fs)
  {
    [Field(0x01, Some(v.swap)), Field(0x02, Some(v.want)), Field(0x03, v.wantAsset), Field(0x09, v.ratioNum),
     Field(0x0a, v.ratioDen), Field(0x0b, v.offerAsset), Field(0x04, v.cancel), Field(0x05, Some(v.maker)),
     Field(0x07, v.makerKey), Field(0x08, Some(v.introspector)), Field(0x0c, v.exit)]
  }

  lemma PieceIs(f: Field)
    requires f.value.Some? ==> |f.value.value| < 0x1_0000
    ensures Piece(f) == Maybe(f.tag, f.value)
  {
    if f.value.Some? {
      ItemIsRecord(f.tag, f.value.value);
    }
  }

  /** The wire bytes are the encoded records of the field list. */
  lemma WireIsEncoded(c: Codecs, v: Values)
    requires Sensible(c, v)
    ensures Wire(c, v) == EncodeAll(Emit(FieldsOf(v)))
  {
    var fs := FieldsOf(v);
    PrintedIsEncoded(fs, 11);
    assert fs[..11] == fs;
    PieceIs(fs[0]); PieceIs(fs[1]); PieceIs(fs[2]); PieceIs(fs[3]); PieceIs(fs[4]); PieceIs(fs[5]);
    PieceIs(fs[6]); PieceIs(fs[7]); PieceIs(fs[8]); PieceIs(fs[9]); PieceIs(fs[10]);
    PrintedEleven(fs);
  }

  lemma PrintedEleven(fs: seq<Field>)
    requires |fs| == 11
    ensures Printed(fs, 11)
            == Piece(fs[0]) + Piece(fs[1]) + Piece(fs[2]) + Piece(fs[3]) + Piece(fs[4]) + Piece(fs[5]) + Piece(fs[6])
               + Piece(fs[7]) + Piece(fs[8]) + Piece(fs[9]) + Piece(fs[10])
  {
    assert Printed(fs, 1) == Piece(fs[0]);
    assert Printed(fs, 3) == Printed(fs, 1) + Piece(fs[1]) + Piece(fs[2]);
    assert Printed(fs, 5) == Printed(fs, 3) + Piece(fs[3]) + Piece(fs[4]);
    assert Printed(fs, 7) == Printed(fs, 5) + Piece(fs[5]) + Piece(fs[6]);
    assert Printed(fs, 9) == Printed(fs, 7) + Piece(fs[7]) + Piece(fs[8]);
    assert Printed(fs, 11) == Printed(fs, 9) + Piece(fs[9]) + Piece(fs[10]);
  }

  /** The last record of each type number is the value of that type. */
  lemma LastOf(v: Values)
    ensures var rs := Emit(FieldsOf(v));
            && Last(rs, 0x01) == Some(v.swap) && Last(rs, 0x02) == Some(v.want) && Last(rs, 0x03) == v.wantAsset
            && Last(rs, 0x09) == v.ratioNum && Last(rs, 0x0a) == v.ratioDen && Last(rs, 0x0b) == v.offerAsset
            && Last(rs, 0x04) == v.cancel && Last(rs, 0x05) == Some(v.maker) && Last(rs, 0x07) == v.makerKey
            && Last(rs, 0x08) == Some(v.introspector) && Last(rs, 0x0c) == v.exit
  {
    var fs := FieldsOf(v);
    LastEmit(fs, 0); LastEmit(fs, 1); LastEmit(fs, 2); LastEmit(fs, 3);
    LastEmit(fs, 4); LastEmit(fs, 5); LastEmit(fs, 6); LastEmit(fs, 7);
    LastEmit(fs, 8); LastEmit(fs, 9); LastEmit(fs, 10);
  }

  lemma FieldSensible(c: Codecs, v: Values, i: nat)
    requires Sensible(c, v) && i < 11 && FieldsOf(v)[i].value.Some?
    ensures var f := FieldsOf(v)[i];
            ValidRecord(c, Record(f.tag, f.value.value)) && |f.value.value| < 0x1_0000
  {
  }

  lemma RecordsSensible(c: Codecs, v: Values)
    requires Sensible(c, v)
    ensures AllValid(c, Emit(FieldsOf(v))) && forall r | r in Emit(FieldsOf(v)) :: Fits(r)
  {
    var fs := FieldsOf(v);
    forall r | r in Emit(fs) ensures ValidRecord(c, r) && Fits(r) {
      EmitMembers(fs, r);
      var i :| 0 <= i < |fs| && fs[i] == Field(r.tag, Some(r.value));
      FieldSensible(c, v, i);
    }
  }

  // ---------------------------------------------------------------------------
  // Parsing and printing in bytes.

  lemma WordsIn(v: Option<bytes>)
    requires Sized(v, 8) && v.Some?
    ensures Word(v.value) == WordValue(v.value)
  {
    WordIsValue(v.value);
  }

  lemma ExitBytes(v: bytes)
    requires |v| == 9
    ensures ExitIn(Some(v), Some(ParseExit(v)))
  {
    WordIsValue(v[1..]);
  }

  /** The records of the values denote the offer they spell. */
  lemma OfferSpelled(c: Codecs, v: Values)
    requires Sensible(c, v)
    ensures Spells(c, v, OfferOf(c, Emit(FieldsOf(v))))
  {
    LastOf(v);
    WordsIn(Some(v.want));
    if v.ratioNum.Some? { WordsIn(v.ratioNum); }
    if v.ratioDen.Some? { WordsIn(v.ratioDen); }
    if v.cancel.Some? { WordsIn(v.cancel); }
    if v.exit.Some? { ExitBytes(v.exit.value); }
  }

  /** Literal bytes parse: the eleven record types, by number, give the offer that their values spell. */
  lemma DecodeWire(c: Codecs, v: Values)
    requires Sensible(c, v)
    ensures Decode(c, Wire(c, v)).Ok? && Spells(c, v, Decode(c, Wire(c, v)).value)
  {
    var rs := Emit(FieldsOf(v));
    WireIsEncoded(c, v);
    RecordsSensible(c, v);
    SplitWhole(rs);
    AcceptedIff(c, EncodeAll(rs));
    LastOf(v);
    OfferSpelled(c, v);
  }

  function WordOut(n: u64): Option<bytes> { if n == 0 then None else Some(WordBytes(n)) }

  /** Seconds are type byte 1, blocks type byte 0. */
  function ExitOut(e: Option<RelativeLocktime>): Option<bytes>
  {
    if e == None then None else Some([if e.value.kind == Block then 0 else 1] + WordBytes(e.value.value))
  }

  function KeyOut(k: Option<PubKey>): Option<bytes> { if k == None then None else Some(k.value.x) }

  function AssetOut(c: Codecs, a: Option<AssetId>): Option<bytes> { if a == None then None else c.printAsset(a.value) }

  /** The values an offer is printed as: zero words, missing assets, keys and delays are left out. */
  function ValuesOf(c: Codecs, o: Offer): Values
    requires o.introspectorPubkey.Some?
  {
    Values(o.swapPkScript, WordBytes(o.wantAmount), AssetOut(c, o.wantAsset), WordOut(o.ratioNum), WordOut(o.ratioDen),
           AssetOut(c, o.offerAsset), WordOut(o.cancelAt), o.makerPkScript, KeyOut(o.makerPublicKey),
           o.introspectorPubkey.value.x, ExitOut(o.exitDelay))
  }

  lemma FieldsAgree(c: Codecs, o: Offer)
    requires o.introspectorPubkey.Some?
    ensures Fields(c, o) == FieldsOf(ValuesOf(c, o))
  {
    hide BigEndian, WordBytes;
    PutsWordBytes(o.wantAmount);
    PutsWordBytes(o.ratioNum);
    PutsWordBytes(o.ratioDen);
    PutsWordBytes(o.cancelAt);
    if o.exitDelay.Some? {
      PutsWordBytes(o.exitDelay.value.value);
    }
  }

  /** A well-formed offer prints as the literal bytes of its values. */
  lemma PrintWire(c: Codecs, o: Offer)
    requires WellFormed(c, o)
    ensures Sensible(c, ValuesOf(c, o)) && Print(c, o) == Ok(Wire(c, ValuesOf(c, o)))
  {
    hide WordBytes, Wire, Fields, FieldsOf;
    FieldsAgree(c, o);
    WireIsEncoded(c, ValuesOf(c, o));
  }

  /** A byte string with a record of any other type number is rejected. */
  lemma OtherTypesRejected(c: Codecs, data: bytes, r: Record)
    requires r in SplitRecords(data).records
    requires r.tag !in {0x01, 0x02, 0x03, 0x04, 0x05, 0x07, 0x08, 0x09, 0x0a, 0x0b, 0x0c}
    ensures Decode(c, data).Err?
  {
    AcceptedIff(c, data);
    assert !ValidRecord(c, r);
  }
}

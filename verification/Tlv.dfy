/** The record layer of pkg/contract/offer.go: [type: 1B][length: 2B big-endian][value]. */
module Tlv {
  import opened Base

  datatype Record = Record(tag: byte, value: bytes)

  /** What stops a byte string from splitting into whole records. */
  datatype Cut =
    | HeaderCut
    | ValueCut(tag: byte, want: u16, have: nat)

  /** The whole records at the front of a byte string, and what is wrong with the rest. */
  datatype Split = Split(records: seq<Record>, cut: Option<Cut>)

  /** encodeTLV: the length is written as uint16(len(value)). */
  function Encode(r: Record): (b: bytes)
    ensures |b| == 3 + |r.value|
  {
    [r.tag] + BigEndian(|r.value| % TWO16, 2) + r.value
  }

  function EncodeAll(rs: seq<Record>): bytes
  {
    if rs == [] then [] else EncodeAll(rs[..|rs| - 1]) + Encode(rs[|rs| - 1])
  }

  /** The length field of a header of at least three bytes. */
  function Length(data: bytes): (n: u16)
    requires |data| >= 3
  {
    var high: int := data[1];
    high * 256 + data[2]
  }

  function SplitRecords(data: bytes): Split
  {
    if data == [] then Split([], None)
    else if |data| < 3 then Split([], Some(HeaderCut))
    else if 3 + Length(data) > |data| then Split([], Some(ValueCut(data[0], Length(data), |data| - 3)))
    else
      var rest := SplitRecords(data[3 + Length(data)..]);
      Split([Record(data[0], data[3..3 + Length(data)])] + rest.records, rest.cut)
  }

  /** A record whose value fits the 16-bit length. */
  predicate Fits(r: Record) { |r.value| < TWO16 }

  lemma {:induction false} EncodeAllConcat(a: seq<Record>, b: seq<Record>)
    ensures EncodeAll(a + b) == EncodeAll(a) + EncodeAll(b)
    decreases |b|
  {
    if b == [] {
      assert a + b == a;
    } else {
      assert (a + b)[..|a + b| - 1] == a + b[..|b| - 1];
      EncodeAllConcat(a, b[..|b| - 1]);
    }
  }

  lemma EncodeAllCons(r: Record, rs: seq<Record>)
    ensures EncodeAll([r] + rs) == Encode(r) + EncodeAll(rs)
  {
    EncodeAllConcat([r], rs);
    assert EncodeAll([r]) == Encode(r) by { assert [r][..0] == []; }
  }

  /** A 16-bit length is written as its high byte and its low byte. */
  lemma TwoBytes(n: u16)
    ensures BigEndian(n, 2) == [n / 256, n % 256]
  {
    var m: int := n / 256;
    assert BigEndian(n, 2) == BigEndian(m, 1) + [n % 256];
    assert BigEndian(m, 1) == BigEndian(m / 256, 0) + [m % 256];
  }

  /** The header of an encoded record reads back as its tag and length. */
  lemma EncodedHeader(r: Record, tail: bytes)
    requires Fits(r)
    ensures var d := Encode(r) + tail;
            d[0] == r.tag && Length(d) == |r.value|
            && d[3..3 + Length(d)] == r.value && d[3 + Length(d)..] == tail
  {
    hide BigEndian;
    TwoBytes(|r.value|);
    var d := Encode(r) + tail;
    assert d[1] == |r.value| / 256 && d[2] == |r.value| % 256;
  }

  lemma SplitOne(r: Record, tail: bytes)
    requires Fits(r)
    ensures var s := SplitRecords(tail);
            SplitRecords(Encode(r) + tail) == Split([r] + s.records, s.cut)
  {
    EncodedHeader(r, tail);
  }

  lemma SplitOneMore(r: Record, rest: seq<Record>, tail: bytes)
    requires Fits(r)
    requires SplitRecords(EncodeAll(rest) + tail) == Split(rest + SplitRecords(tail).records, SplitRecords(tail).cut)
    ensures SplitRecords(EncodeAll([r] + rest) + tail)
            == Split([r] + rest + SplitRecords(tail).records, SplitRecords(tail).cut)
  {
    EncodeAllCons(r, rest);
    ConcatAssoc(Encode(r), EncodeAll(rest), tail);
    SplitOne(r, EncodeAll(rest) + tail);
    ConcatAssoc([r], rest, SplitRecords(tail).records);
  }

  /** Splitting undoes printing, whatever follows is split on its own. */
  lemma {:induction false} SplitEncodeAll(rs: seq<Record>, tail: bytes)
    requires forall r | r in rs :: Fits(r)
    ensures SplitRecords(EncodeAll(rs) + tail)
            == Split(rs + SplitRecords(tail).records, SplitRecords(tail).cut)
    decreases |rs|
  {
    if rs == [] {
      ConcatEmpty(tail);
      ConcatEmpty(SplitRecords(tail).records);
    } else {
      SplitEncodeAll(rs[1..], tail);
      SplitOneMore(rs[0], rs[1..], tail);
      assert rs == [rs[0]] + rs[1..];
    }
  }

  /** A whole record at the front of a byte string is the printed form of its fields. */
  lemma EncodeFront(data: bytes)
    requires |data| >= 3 && 3 + Length(data) <= |data|
    ensures Encode(Record(data[0], data[3..3 + Length(data)])) == data[..3 + Length(data)]
  {
    hide BigEndian;
    var n: int := Length(data);
    TwoBytes(n);
    assert n / 256 == data[1] && n % 256 == data[2];
  }

  /** Whatever splits without a cut is the printed form of its records. */
  lemma {:induction false} EncodeSplit(data: bytes)
    requires SplitRecords(data).cut == None
    ensures EncodeAll(SplitRecords(data).records) == data
    decreases |data|
  {
    if data != [] {
      var n := 3 + Length(data);
      var tail := data[n..];
      EncodeSplit(tail);
      EncodeFront(data);
      EncodeAllCons(Record(data[0], data[3..n]), SplitRecords(tail).records);
    }
  }

  lemma {:induction false} SplitFits(data: bytes)
    ensures forall r | r in SplitRecords(data).records :: Fits(r)
    decreases |data|
  {
    if |data| >= 3 && 3 + Length(data) <= |data| {
      SplitFits(data[3 + Length(data)..]);
    }
  }

  /**
   * Cutting a printed record list short leaves a strict prefix of the records; either the cut
   * falls on a record boundary or the remainder is reported as cut.
   */
  lemma {:induction false} SplitPrefix(rs: seq<Record>, n: nat) returns (k: nat)
    requires forall r | r in rs :: Fits(r)
    requires n < |EncodeAll(rs)|
    ensures k < |rs|
    ensures SplitRecords(EncodeAll(rs)[..n]).records == rs[..k]
    ensures SplitRecords(EncodeAll(rs)[..n]).cut == None ==> EncodeAll(rs)[..n] == EncodeAll(rs[..k])
    decreases |rs|
  {
    var r, rest := rs[0], rs[1..];
    assert rs == [r] + rest;
    EncodeAllCons(r, rest);
    var whole := EncodeAll(rs);
    var p := whole[..n];
    if n < |Encode(r)| {
      k := 0;
      if n >= 3 {
        EncodedHeader(r, EncodeAll(rest));
        assert p[1] == whole[1] && p[2] == whole[2];
      }
    } else {
      var m := n - |Encode(r)|;
      var k' := SplitPrefix(rest, m);
      k := k' + 1;
      assert p == Encode(r) + EncodeAll(rest)[..m];
      EncodedHeader(r, EncodeAll(rest)[..m]);
      assert rs[..k] == [r] + rest[..k'];
      EncodeAllCons(r, rest[..k']);
    }
  }

  /** The value of the last record with the given tag. */
  function Last(rs: seq<Record>, tag: byte): Option<bytes>
  {
    if rs == [] then None
    else if rs[|rs| - 1].tag == tag then Some(rs[|rs| - 1].value)
    else Last(rs[..|rs| - 1], tag)
  }

  predicate DistinctTags(rs: seq<Record>)
  {
    forall i, j | 0 <= i < j < |rs| :: rs[i].tag != rs[j].tag
  }

  lemma {:induction false} LastNone(rs: seq<Record>, tag: byte)
    ensures Last(rs, tag) == None <==> forall r | r in rs :: r.tag != tag
  {
    if rs != [] {
      LastNone(rs[..|rs| - 1], tag);
      assert rs == rs[..|rs| - 1] + [rs[|rs| - 1]];
    }
  }

  /** Among records of distinct tags, the last one of a tag is the only one. */
  lemma {:induction false} LastDistinct(rs: seq<Record>, r: Record)
    requires DistinctTags(rs) && r in rs
    ensures Last(rs, r.tag) == Some(r.value)
  {
    if rs[|rs| - 1] != r {
      var i :| 0 <= i < |rs| && rs[i] == r;
      assert rs[..|rs| - 1][i] == r;
      LastDistinct(rs[..|rs| - 1], r);
    }
  }

  /** Reordering records of distinct tags changes no last value. */
  lemma LastPermutation(a: seq<Record>, b: seq<Record>, tag: byte)
    requires multiset(a) == multiset(b) && DistinctTags(a) && DistinctTags(b)
    ensures Last(a, tag) == Last(b, tag)
  {
    LastNone(a, tag);
    LastNone(b, tag);
    assert forall r :: r in a <==> r in multiset(a);
    assert forall r :: r in b <==> r in multiset(b);
    if Last(a, tag) != None {
      var r :| r in a && r.tag == tag;
      LastDistinct(a, r);
      LastDistinct(b, r);
    }
  }
}

/** FulfillScript of pkg/contract/offer.go: the covenant compiled from an offer, and its meaning. */
module Covenant {
  import opened Base
  import opened Offers
  import opened ScriptNumbers
  import opened Script

  // ---------------------------------------------------------------------------
  // The compiler.

  /** txscript.ScriptBuilder. */
  class ScriptBuilder {
    var ops: seq<Op>

    constructor ()
      ensures ops == []
    {
      ops := [];
    }

    method AddOp(op: Op)
      modifies this
      ensures ops == old(ops) + [op]
    {
      ops := ops + [op];
    }

    method AddData(data: bytes)
      modifies this
      ensures ops == old(ops) + [Push(data)]
    {
      ops := ops + [Push(data)];
    }

    method AddInt64(n: i64)
      modifies this
      ensures ops == old(ops) + [Push(NumBytes(n))]
    {
      ops := ops + [Push(NumBytes(n))];
    }
  }

  function PkScriptCheck(program: bytes): seq<Op>
  {
    [OP_0, InspectOutputScriptPubKey, OP_1, EqualVerify, Push(program), Equal]
  }

  /** int64(o.WantAmount): amounts of 2^63 and more turn negative. */
  function Threshold(o: Offer): i64 { WrapI64(o.wantAmount) }

  function BtcCheck(threshold: i64): seq<Op>
  {
    [OP_0, InspectOutputValue, Push(NumBytes(threshold)), GreaterThanOrEqual, Verify]
  }

  function AssetCheck(txid: bytes, threshold: i64): seq<Op>
  {
    [OP_0, Push(txid), OP_0, InspectOutAssetLookup, Verify, Push(NumBytes(threshold)), GreaterThanOrEqual, Verify]
  }

  function AmountCheck(o: Offer): seq<Op>
  {
    if o.wantAsset == None then BtcCheck(Threshold(o)) else AssetCheck(o.wantAsset.value.txid, Threshold(o))
  }

  function Compile(o: Offer): seq<Op>
    requires |o.makerPkScript| >= 2
  {
    AmountCheck(o) + PkScriptCheck(o.makerPkScript[2..])
  }

  method AddPkScriptCheck(b: ScriptBuilder, program: bytes)
    modifies b
    ensures b.ops == old(b.ops) + PkScriptCheck(program)
  {
    b.AddOp(OP_0);
    b.AddOp(InspectOutputScriptPubKey);
    b.AddOp(OP_1);
    b.AddOp(EqualVerify);
    b.AddData(program);
    b.AddOp(Equal);
  }

  /** FulfillScript: the builder emits the amount check and then the output script check. */
  method FulfillScript(o: Offer) returns (ops: seq<Op>)
    requires |o.makerPkScript| >= 2
    ensures ops == Compile(o)
  {
    var program := o.makerPkScript[2..];
    var b := new ScriptBuilder();
    if o.wantAsset == None {
      b.AddOp(OP_0);
      b.AddOp(InspectOutputValue);
      b.AddInt64(WrapI64(o.wantAmount));
      b.AddOp(GreaterThanOrEqual);
      b.AddOp(Verify);
    } else {
      b.AddOp(OP_0);
      b.AddData(o.wantAsset.value.txid);
      b.AddOp(OP_0);
      b.AddOp(InspectOutAssetLookup);
      b.AddOp(Verify);
      b.AddInt64(WrapI64(o.wantAmount));
      b.AddOp(GreaterThanOrEqual);
      b.AddOp(Verify);
    }
    assert b.ops == AmountCheck(o);
    AddPkScriptCheck(b, program);
    ops := b.ops;
  }

  // ---------------------------------------------------------------------------
  // The meaning.

  /** Output 0 is a taproot output with the maker's witness program. */
  predicate ToMaker(o: Offer, tx: Tx)
    requires |o.makerPkScript| >= 2
  {
    |tx.outputs| > 0 && WitnessProgram(tx.outputs[0].pkScript) == Some((1, o.makerPkScript[2..]))
  }

  /**
   * What the script checks: output 0 carries at least `n` sats, or asset group 0 was issued by the
   * wanted asset's transaction and its first entry for output 0 carries at least `n` units.
   */
  ghost predicate Carries(o: Offer, tx: Tx, n: int)
  {
    if o.wantAsset == None then |tx.outputs| > 0 && tx.outputs[0].value >= n
    else
      && |tx.groups| > 0
      && tx.groups[0].assetId.txid == o.wantAsset.value.txid
      && HandsOut(tx.groups[0].outputs, 0, n)
  }

  /** Asset group 0, if there is one, has the issuance index of the wanted asset. */
  predicate IndexAgrees(o: Offer, tx: Tx)
  {
    o.wantAsset.Some? && |tx.groups| > 0 ==> tx.groups[0].assetId.index == o.wantAsset.value.index
  }

  /** The promise to the maker: WantAmount sats, or WantAmount units of the very asset wanted. */
  ghost predicate Pays(o: Offer, tx: Tx)
    requires |o.makerPkScript| >= 2
  {
    && ToMaker(o, tx)
    && if o.wantAsset == None then tx.outputs[0].value >= o.wantAmount
       else
         && |tx.groups| > 0
         && tx.groups[0].assetId == o.wantAsset.value
         && HandsOut(tx.groups[0].outputs, 0, o.wantAmount)
  }

  /** A transaction that keeps the promise hands the maker the wanted units, counted over the whole packet. */
  lemma PaidUnitsReceived(o: Offer, tx: Tx)
    requires |o.makerPkScript| >= 2 && o.wantAsset.Some? && Pays(o, tx)
    ensures Received(tx.groups, o.wantAsset.value, 0) >= o.wantAmount
  {
    var outs := tx.groups[0].outputs;
    var j :| 0 <= j < |outs| && outs[j].vout == 0 && outs[j].amount >= o.wantAmount;
    ReachingEntry(outs, 0, j);
    ReceivedGroup(tx.groups, o.wantAsset.value, 0, 0);
  }

  lemma RunCons(op: Op, rest: seq<Op>, ops: seq<Op>, s: Stack, tx: Tx, hash: bytes -> bytes)
    requires ops == [op] + rest
    ensures Run(ops, s, tx, hash)
            == var m := Exec(op, s, tx, hash); if m == None then None else Run(rest, m.value, tx, hash)
  {
    assert ops[1..] == rest;
  }

  lemma OneIsOne()
    ensures NumBytes(1) == [1]
  {
    assert LittleEndian(1) == [1] + LittleEndian(0);
  }

  lemma BoolTruth()
    ensures Truthy(Bool(true)) && !Truthy(Bool(false))
  {
    OneIsOne();
    NumRoundTrip(1);
  }

  /** A pushed number equals the push of 1 only if it is 1. */
  lemma PushedOne(n: int)
    ensures NumBytes(n) == [1] <==> n == 1
  {
    OneIsOne();
    NumRoundTrip(n);
    NumRoundTrip(1);
  }

  /** The output script check leaves one flag: does output 0 pay the program under witness version 1? */
  lemma PkScriptCheckRuns(program: bytes, s: Stack, tx: Tx, hash: bytes -> bytes)
    ensures Run(PkScriptCheck(program), s, tx, hash)
            == (if |tx.outputs| == 0 then None
                else
                  var w := WitnessProgram(tx.outputs[0].pkScript);
                  if w.Some? && w.value.0 == 1 then Some(Item(Bool(w.value.1 == program), s)) else None)
  {
    var c4 := [Push(program), Equal];
    var c2 := [OP_1, EqualVerify] + c4;
    RunCons(OP_0, [InspectOutputScriptPubKey] + c2, PkScriptCheck(program), s, tx, hash);
    RunCons(InspectOutputScriptPubKey, c2, [InspectOutputScriptPubKey] + c2, Item([], s), tx, hash);
    if |tx.outputs| > 0 {
      var w := WitnessProgram(tx.outputs[0].pkScript);
      if w.Some? {
        PushedOne(w.value.0);
        ProgramCheckRuns(program, w.value.1, NumBytes(w.value.0), c2, s, tx, hash);
      } else {
        PushedOne(-1);
        ProgramCheckRuns(program, hash(tx.outputs[0].pkScript), NumBytes(-1), c2, s, tx, hash);
      }
    }
  }

  /** The second half of the output script check, from the pushed program and version on. */
  lemma ProgramCheckRuns(program: bytes, actual: bytes, version: bytes, ops: seq<Op>, s: Stack, tx: Tx, hash: bytes -> bytes)
    requires ops == [OP_1, EqualVerify, Push(program), Equal]
    ensures Run(ops, Item(version, Item(actual, s)), tx, hash)
            == if version == [1] then Some(Item(Bool(actual == program), s)) else None
  {
    var c3, c4 := [EqualVerify, Push(program), Equal], [Push(program), Equal];
    RunCons(OP_1, c3, ops, Item(version, Item(actual, s)), tx, hash);
    RunCons(EqualVerify, c4, c3, Item([1], Item(version, Item(actual, s))), tx, hash);
    RunCons(Push(program), [Equal], c4, Item(actual, s), tx, hash);
    RunOne(Equal, Item(program, Item(actual, s)), tx, hash);
  }

  /** Comparing two stack elements and verifying continues iff the first is at least the second. */
  lemma CompareBytes(a: bytes, b: bytes, ops: seq<Op>, s: Stack, tx: Tx, hash: bytes -> bytes)
    requires ops == [Push(b), GreaterThanOrEqual, Verify]
    ensures Run(ops, Item(a, s), tx, hash) == if BytesNum(a) >= BytesNum(b) then Some(s) else None
  {
    var c := [GreaterThanOrEqual, Verify];
    RunCons(Push(b), c, ops, Item(a, s), tx, hash);
    RunCons(GreaterThanOrEqual, [Verify], c, Item(b, Item(a, s)), tx, hash);
    RunOne(Verify, Item(Bool(BytesNum(a) >= BytesNum(b)), s), tx, hash);
    BoolTruth();
  }

  lemma CompareRuns(a: int, b: int, ops: seq<Op>, s: Stack, tx: Tx, hash: bytes -> bytes)
    requires ops == [Push(NumBytes(b)), GreaterThanOrEqual, Verify]
    ensures Run(ops, Item(NumBytes(a), s), tx, hash) == if a >= b then Some(s) else None
  {
    NumRoundTrip(a);
    NumRoundTrip(b);
    CompareBytes(NumBytes(a), NumBytes(b), ops, s, tx, hash);
  }

  lemma BtcCheckRuns(t: i64, s: Stack, tx: Tx, hash: bytes -> bytes)
    ensures Run(BtcCheck(t), s, tx, hash)
            == if |tx.outputs| > 0 && tx.outputs[0].value >= t then Some(s) else None
  {
    var c2 := [Push(NumBytes(t)), GreaterThanOrEqual, Verify];
    RunCons(OP_0, [InspectOutputValue] + c2, BtcCheck(t), s, tx, hash);
    RunCons(InspectOutputValue, c2, [InspectOutputValue] + c2, Item([], s), tx, hash);
    if |tx.outputs| > 0 {
      CompareRuns(tx.outputs[0].value, t, c2, s, tx, hash);
    }
  }

  /** The asset lookup pushes a flag over the amount found. */
  lemma LookupRuns(txid: bytes, rest: seq<Op>, ops: seq<Op>, s: Stack, tx: Tx, hash: bytes -> bytes)
    requires ops == [OP_0, Push(txid), OP_0, InspectOutAssetLookup] + rest
    ensures var found := Lookup(tx, 0, txid, 0);
            var amount := NumBytes(if found.Some? then found.value else 0);
            Run(ops, s, tx, hash) == Run(rest, Item(Bool(found.Some?), Item(amount, s)), tx, hash)
  {
    var c3 := [InspectOutAssetLookup] + rest;
    var c2 := [OP_0] + c3;
    var c1 := [Push(txid)] + c2;
    RunCons(OP_0, c1, ops, s, tx, hash);
    RunCons(Push(txid), c2, c1, Item([], s), tx, hash);
    RunCons(OP_0, c3, c2, Item(txid, Item([], s)), tx, hash);
    RunCons(InspectOutAssetLookup, rest, c3, Item([], Item(txid, Item([], s))), tx, hash);
  }

  lemma AssetCheckRuns(txid: bytes, t: i64, s: Stack, tx: Tx, hash: bytes -> bytes)
    ensures Run(AssetCheck(txid, t), s, tx, hash)
            == var found := Lookup(tx, 0, txid, 0);
               if found.Some? && found.value >= t then Some(s) else None
  {
    var c5 := [Push(NumBytes(t)), GreaterThanOrEqual, Verify];
    var c4 := [Verify] + c5;
    LookupRuns(txid, c4, AssetCheck(txid, t), s, tx, hash);
    var found := Lookup(tx, 0, txid, 0);
    var amount := NumBytes(if found.Some? then found.value else 0);
    RunCons(Verify, c5, c4, Item(Bool(found.Some?), Item(amount, s)), tx, hash);
    BoolTruth();
    if found.Some? {
      CompareRuns(found.value, t, c5, s, tx, hash);
    }
  }

  /** The compiled script accepts a transaction iff output 0 is the maker's and carries int64(WantAmount). */
  lemma CovenantMeaning(o: Offer, tx: Tx, hash: bytes -> bytes)
    requires |o.makerPkScript| >= 2
    ensures Accepts(Compile(o), tx, hash) <==> ToMaker(o, tx) && Carries(o, tx, Threshold(o))
  {
    RunConcat(AmountCheck(o), PkScriptCheck(o.makerPkScript[2..]), Empty, tx, hash);
    PkScriptCheckRuns(o.makerPkScript[2..], Empty, tx, hash);
    BoolTruth();
    if o.wantAsset == None {
      BtcCheckRuns(Threshold(o), Empty, tx, hash);
    } else {
      AssetCheckRuns(o.wantAsset.value.txid, Threshold(o), Empty, tx, hash);
      if |tx.groups| > 0 {
        HandsOutIff(tx.groups[0].outputs, 0, Threshold(o));
      }
    }
  }

  /**
   * For a want below 2^63, a transaction keeps the promise exactly when the script accepts it and
   * asset group 0 has the wanted issuance index.
   */
  lemma PaysIff(o: Offer, tx: Tx, hash: bytes -> bytes)
    requires |o.makerPkScript| >= 2 && o.wantAmount < TWO63
    ensures Pays(o, tx) <==> Accepts(Compile(o), tx, hash) && IndexAgrees(o, tx)
  {
    CovenantMeaning(o, tx, hash);
  }

  /** A payment to the maker's program of no sats and `n` units of one asset. */
  function Payment(o: Offer, id: AssetId, n: u64): Tx
    requires |o.makerPkScript| == 34
  {
    Tx([TxOut(0, [0x51, 32] + o.makerPkScript[2..])], [AssetGroup(id, [], [AssetOutput(0, n)])])
  }

  lemma PaymentToMaker(o: Offer, id: AssetId, n: u64)
    requires |o.makerPkScript| == 34
    ensures ToMaker(o, Payment(o, id, n))
    ensures forall m: int :: HandsOut(Payment(o, id, n).groups[0].outputs, 0, m) <==> n >= m
  {
    assert Payment(o, id, n).outputs[0].pkScript[2..] == o.makerPkScript[2..];
    forall m: int ensures HandsOut(Payment(o, id, n).groups[0].outputs, 0, m) <==> n >= m {
      HandsOutIff(Payment(o, id, n).groups[0].outputs, 0, m);
    }
  }

  /** An asset issued by the wanted asset's transaction under another index passes for it. */
  lemma SiblingAccepted(o: Offer, sibling: AssetId, hash: bytes -> bytes)
    requires |o.makerPkScript| == 34 && o.wantAsset.Some?
    requires sibling.txid == o.wantAsset.value.txid && sibling != o.wantAsset.value
    ensures var tx := Payment(o, sibling, o.wantAmount);
            && Accepts(Compile(o), tx, hash) && !Pays(o, tx)
            && Received(tx.groups, o.wantAsset.value, 0) == 0
  {
    var tx := Payment(o, sibling, o.wantAmount);
    PaymentToMaker(o, sibling, o.wantAmount);
    CovenantMeaning(o, tx, hash);
    ReceivedNowhere(tx.groups, o.wantAsset.value, 0);
  }

  /** From 2^63 on, the script accepts a payment of nothing. */
  lemma HugeWantAcceptsNothing(o: Offer, hash: bytes -> bytes)
    requires |o.makerPkScript| == 34 && o.wantAmount >= TWO63
    ensures var tx := Payment(o, if o.wantAsset == None then AssetId([], 0) else o.wantAsset.value, 0);
            Accepts(Compile(o), tx, hash) && IndexAgrees(o, tx) && !Pays(o, tx)
  {
    var id := if o.wantAsset == None then AssetId([], 0) else o.wantAsset.value;
    PaymentToMaker(o, id, 0);
    CovenantMeaning(o, Payment(o, id, 0), hash);
  }

  /**
   * Over the transactions whose asset group 0 has the wanted issuance index, the script accepts
   * exactly those that keep the promise, iff WantAmount fits an int64.
   */
  lemma CovenantMeansWantIff(o: Offer, hash: bytes -> bytes)
    requires |o.makerPkScript| == 34
    ensures (forall tx | IndexAgrees(o, tx) :: Accepts(Compile(o), tx, hash) <==> Pays(o, tx)) <==> o.wantAmount < TWO63
  {
    if o.wantAmount < TWO63 {
      forall tx | IndexAgrees(o, tx) ensures Accepts(Compile(o), tx, hash) <==> Pays(o, tx) {
        PaysIff(o, tx, hash);
      }
    } else {
      HugeWantAcceptsNothing(o, hash);
    }
  }

  /** Over all transactions the script means the promise exactly for BTC wants that fit an int64. */
  lemma CovenantExactIff(o: Offer, hash: bytes -> bytes)
    requires |o.makerPkScript| == 34
    ensures (forall tx :: Accepts(Compile(o), tx, hash) <==> Pays(o, tx)) <==> o.wantAsset == None && o.wantAmount < TWO63
  {
    CovenantMeansWantIff(o, hash);
    if o.wantAsset.Some? {
      var want := o.wantAsset.value;
      SiblingAccepted(o, AssetId(want.txid, if want.index == 0 then 1 else 0), hash);
    }
  }

  /** A 34-byte maker script pays its own witness program iff it is OP_1 PUSH32 (BIP 341, "Script validation rules"). */
  predicate TaprootShaped(pk: bytes)
  {
    |pk| == 34 && pk[0] == 0x51 && pk[1] == 32
  }

  /** A transaction pays a 34-byte maker exactly when output 0's script is OP_1 PUSH32 and the maker's program. */
  lemma ToMakerIff(o: Offer, tx: Tx)
    requires |o.makerPkScript| == 34
    ensures ToMaker(o, tx) <==> |tx.outputs| > 0 && tx.outputs[0].pkScript == [0x51, 0x20] + o.makerPkScript[2..]
  {
    if |tx.outputs| > 0 {
      var pk := tx.outputs[0].pkScript;
      if ToMaker(o, tx) {
        assert pk == [pk[0], pk[1]] + pk[2..];
      }
      if pk == [0x51, 0x20] + o.makerPkScript[2..] {
        assert pk[2..] == o.makerPkScript[2..];
      }
    }
  }

  lemma TaprootShapedIff(pk: bytes)
    requires |pk| == 34
    ensures WitnessProgram(pk) == Some((1, pk[2..])) <==> TaprootShaped(pk)
  {
  }
}

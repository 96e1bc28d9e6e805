/** The stack machine that runs fulfil scripts: the opcodes FulfillScript emits. */
module Script {
  import opened Base
  import opened Offers
  import opened ScriptNumbers

  datatype TxOut = TxOut(value: i64, pkScript: bytes)
  datatype AssetInput = AssetInput(vin: u16, amount: u64)
  datatype AssetOutput = AssetOutput(vout: u16, amount: u64)
  datatype AssetGroup = AssetGroup(assetId: AssetId, inputs: seq<AssetInput>, outputs: seq<AssetOutput>)

  /** What a script can see of a transaction: its outputs and the groups of its asset packet. */
  datatype Tx = Tx(outputs: seq<TxOut>, groups: seq<AssetGroup>)

  datatype Op =
    | Push(data: bytes)
    | InspectOutputValue
    | InspectOutputScriptPubKey
    | InspectOutAssetLookup
    | GreaterThanOrEqual
    | Verify
    | Equal
    | EqualVerify

  const OP_0 := Push([])
  const OP_1 := Push([1])

  datatype Stack = Empty | Item(top: bytes, below: Stack)

  /** Any byte but a sign-only zero makes a stack element true. */
  predicate Truthy(b: bytes) { BytesNum(b) != 0 }

  function Bool(v: bool): bytes { if v then [1] else [] }

  /** A witness output script: a version opcode and one push of 2 to 40 bytes (BIP 141, "Witness program"). */
  function WitnessProgram(pk: bytes): Option<(nat, bytes)>
  {
    if 4 <= |pk| <= 42 && (pk[0] == 0 || 0x51 <= pk[0] <= 0x60) && pk[1] == |pk| - 2
    then Some((if pk[0] == 0 then 0 else pk[0] - 0x50, pk[2..]))
    else None
  }

  /** The amount the first entry for an output carries in an asset group. */
  function AmountAt(outputs: seq<AssetOutput>, vout: int): Option<u64>
  {
    if outputs == [] then None
    else if outputs[0].vout == vout then Some(outputs[0].amount)
    else AmountAt(outputs[1..], vout)
  }

  /** The first entry for an output carries at least n units. */
  ghost predicate HandsOut(outputs: seq<AssetOutput>, vout: int, n: int)
  {
    exists j | 0 <= j < |outputs| ::
      outputs[j].vout == vout && outputs[j].amount >= n && forall i | 0 <= i < j :: outputs[i].vout != vout
  }

  lemma {:induction false} HandsOutIff(outputs: seq<AssetOutput>, vout: int, n: int)
    ensures HandsOut(outputs, vout, n) <==> AmountAt(outputs, vout).Some? && AmountAt(outputs, vout).value >= n
  {
    if outputs != [] && outputs[0].vout != vout {
      var rest := outputs[1..];
      HandsOutIff(rest, vout, n);
      if HandsOut(rest, vout, n) {
        var j :| 0 <= j < |rest| && rest[j].vout == vout && rest[j].amount >= n
          && forall i | 0 <= i < j :: rest[i].vout != vout;
        assert outputs[j + 1] == rest[j];
        assert forall i | 0 < i < j + 1 :: outputs[i] == rest[i - 1];
      }
      if HandsOut(outputs, vout, n) {
        var j :| 0 <= j < |outputs| && outputs[j].vout == vout && outputs[j].amount >= n
          && forall i | 0 <= i < j :: outputs[i].vout != vout;
        assert rest[j - 1] == outputs[j];
        assert forall i | 0 <= i < j - 1 :: rest[i] == outputs[i + 1];
      }
    }
  }

  /** The units of one asset group that reach an output, over all its entries. */
  function Reaching(outs: seq<AssetOutput>, vout: int): (n: int)
    ensures n >= 0
  {
    if outs == [] then 0
    else Reaching(outs[..|outs| - 1], vout)
         + if outs[|outs| - 1].vout == vout then outs[|outs| - 1].amount else 0
  }

  /** The units of one asset, named by its full ID, that reach an output over a whole packet. */
  function Received(groups: seq<AssetGroup>, id: AssetId, vout: int): (n: int)
    ensures n >= 0
  {
    if groups == [] then 0
    else
      var g := groups[|groups| - 1];
      Received(groups[..|groups| - 1], id, vout) + if g.assetId == id then Reaching(g.outputs, vout) else 0
  }

  lemma {:induction false} ReachingEntry(outs: seq<AssetOutput>, vout: int, j: nat)
    requires j < |outs| && outs[j].vout == vout
    ensures Reaching(outs, vout) >= outs[j].amount
  {
    if j < |outs| - 1 {
      ReachingEntry(outs[..|outs| - 1], vout, j);
    }
  }

  lemma {:induction false} ReceivedGroup(groups: seq<AssetGroup>, id: AssetId, vout: int, i: nat)
    requires i < |groups| && groups[i].assetId == id
    ensures Received(groups, id, vout) >= Reaching(groups[i].outputs, vout)
  {
    if i < |groups| - 1 {
      ReceivedGroup(groups[..|groups| - 1], id, vout, i);
    }
  }

  lemma {:induction false} ReceivedNowhere(groups: seq<AssetGroup>, id: AssetId, vout: int)
    requires forall i | 0 <= i < |groups| :: groups[i].assetId != id
    ensures Received(groups, id, vout) == 0
  {
    if groups != [] {
      ReceivedNowhere(groups[..|groups| - 1], id, vout);
    }
  }

  /** An asset with one group is received through that group alone. */
  lemma {:induction false} ReceivedOnce(groups: seq<AssetGroup>, id: AssetId, vout: int)
    requires groups != [] && groups[0].assetId == id
    requires forall i | 0 < i < |groups| :: groups[i].assetId != id
    ensures Received(groups, id, vout) == Reaching(groups[0].outputs, vout)
  {
    var n := |groups| - 1;
    if n == 0 {
      ReceivedNowhere(groups[..0], id, vout);
    } else {
      ReceivedOnce(groups[..n], id, vout);
    }
  }

  /** Asset lookup: the group at the given index, if issued by txid, and its amount at the output. */
  function Lookup(tx: Tx, group: int, txid: bytes, vout: int): Option<u64>
  {
    if 0 <= group < |tx.groups| && tx.groups[group].assetId.txid == txid
    then AmountAt(tx.groups[group].outputs, vout)
    else None
  }

  /**
   * One opcode; None is a failed script. `hash` is the digest a non-witness output script is
   * reported as, next to version -1.
   */
  function Exec(op: Op, s: Stack, tx: Tx, hash: bytes -> bytes): Option<Stack>
  {
    match (op, s)
    case (Push(data), _) => Some(Item(data, s))
    case (InspectOutputValue, Item(index, below)) =>
      var i := BytesNum(index);
      if 0 <= i < |tx.outputs| then Some(Item(NumBytes(tx.outputs[i].value), below)) else None
    case (InspectOutputScriptPubKey, Item(index, below)) =>
      var i := BytesNum(index);
      if 0 <= i < |tx.outputs| then
        var w := WitnessProgram(tx.outputs[i].pkScript);
        if w.Some? then Some(Item(NumBytes(w.value.0), Item(w.value.1, below)))
        else Some(Item(NumBytes(-1), Item(hash(tx.outputs[i].pkScript), below)))
      else None
    case (InspectOutAssetLookup, Item(group, Item(txid, Item(index, below)))) =>
      var found := Lookup(tx, BytesNum(group), txid, BytesNum(index));
      if found.Some? then Some(Item(Bool(true), Item(NumBytes(found.value), below)))
      else Some(Item(Bool(false), Item(NumBytes(0), below)))
    case (GreaterThanOrEqual, Item(b, Item(a, below))) => Some(Item(Bool(BytesNum(a) >= BytesNum(b)), below))
    case (Verify, Item(flag, below)) => if Truthy(flag) then Some(below) else None
    case (Equal, Item(b, Item(a, below))) => Some(Item(Bool(a == b), below))
    case (EqualVerify, Item(b, Item(a, below))) => if a == b then Some(below) else None
    case _ => None
  }

  function Run(ops: seq<Op>, s: Stack, tx: Tx, hash: bytes -> bytes): Option<Stack>
    decreases |ops|
  {
    if ops == [] then Some(s)
    else
      var s' := Exec(ops[0], s, tx, hash);
      if s' == None then None else Run(ops[1..], s'.value, tx, hash)
  }

  /** A script accepts when it leaves exactly one, true, element (BIP 342, "Script execution"). */
  predicate Accepts(ops: seq<Op>, tx: Tx, hash: bytes -> bytes)
  {
    var s := Run(ops, Empty, tx, hash);
    s.Some? && s.value.Item? && s.value.below.Empty? && Truthy(s.value.top)
  }

  lemma {:induction false} RunConcat(a: seq<Op>, b: seq<Op>, s: Stack, tx: Tx, hash: bytes -> bytes)
    ensures Run(a + b, s, tx, hash)
            == var m := Run(a, s, tx, hash); if m == None then None else Run(b, m.value, tx, hash)
    decreases |a|
  {
    if a == [] {
      assert a + b == b;
    } else {
      assert (a + b)[1..] == a[1..] + b;
      var s' := Exec(a[0], s, tx, hash);
      if s'.Some? {
        RunConcat(a[1..], b, s'.value, tx, hash);
      }
    }
  }

  lemma RunOne(op: Op, s: Stack, tx: Tx, hash: bytes -> bytes)
    ensures Run([op], s, tx, hash) == Exec(op, s, tx, hash)
  {
    assert [op][1..] == [];
  }
}

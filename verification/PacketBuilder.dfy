/** buildFulfillAssetPacket of pkg/contract/taker.go, as the source runs it: a map of mutable transfers. */
module PacketBuilder {
  import opened Base
  import opened Offers
  import opened Script
  import opened Wallet
  import opened Routing

  datatype PacketError = InputRefused | WantNotFound | OutputRefused | BadAssetId | GroupRefused | PacketRefused

  class AssetTransfer {
    var inputs: seq<AssetInput>
    var outputs: seq<AssetOutput>

    constructor ()
      ensures inputs == [] && outputs == []
    {
      inputs, outputs := [], [];
    }
  }

  type Transfers = map<AssetName, AssetTransfer>

  ghost predicate NoAliases(m: Transfers)
  {
    forall j, k | j in m && k in m && j != k :: m[j] != m[k]
  }

  /** The map holds one transfer per asset seen so far, with that asset's inputs. */
  ghost predicate HasInputs(m: Transfers, es: seq<Entry>)
    reads m.Values
  {
    && m.Keys == Ids(es)
    && NoAliases(m)
    && forall k | k in m :: m[k].inputs == InputsOf(es, k)
  }

  /** No transfer has outputs yet. */
  ghost predicate NoOutputs(m: Transfers)
    reads m.Values
  {
    forall k | k in m :: m[k].outputs == []
  }

  /** Every transfer has all its outputs. */
  ghost predicate HasOutputs(m: Transfers, lib: PacketLib, o: Offer, es: seq<Entry>)
    reads m.Values
  {
    forall k | k in m :: m[k].outputs == OutputsOf(lib, o, es, k)
  }

  /** ensureTransfer, then append the input. */
  method Register(m: Transfers, id: AssetName, input: AssetInput, ghost es: seq<Entry>) returns (m': Transfers)
    requires HasInputs(m, es) && NoOutputs(m)
    modifies m.Values
    ensures HasInputs(m', es + [Entry(id, input)]) && NoOutputs(m')
    ensures fresh(m'.Values - m.Values)
  {
    m' := m;
    ghost var e := Entry(id, input);
    IdsSnoc(es, e);
    if id !in m {
      NoInputs(es, id);
      var t := new AssetTransfer();
      m' := m[id := t];
    }
    var t := m'[id];
    t.inputs := t.inputs + [input];
    forall k | k in m' ensures m'[k].inputs == InputsOf(es + [e], k) {
      InputsOfSnoc(es, e, k);
    }
  }

  /** Registers the assets of one VTXO; stops at the first refused input. */
  method RegisterVtxo(lib: PacketLib, m: Transfers, assets: seq<AssetEntry>, vin: u16, ghost es: seq<Entry>)
    returns (ok: bool, m': Transfers)
    requires HasInputs(m, es) && NoOutputs(m)
    modifies m.Values
    ensures ok ==> HasInputs(m', es + EntriesAt(assets, vin)) && NoOutputs(m')
    ensures fresh(m'.Values - m.Values)
    ensures ok <==> InputsAccepted(lib, EntriesAt(assets, vin))
  {
    m' := m;
    assert assets[..0] == [] && es + [] == es;
    for i := 0 to |assets|
      invariant HasInputs(m', es + EntriesAt(assets[..i], vin)) && NoOutputs(m')
      invariant fresh(m'.Values - m.Values)
      invariant InputsAccepted(lib, EntriesAt(assets[..i], vin))
    {
      var a := assets[i];
      var input := AssetInput(vin, a.amount);
      ghost var before := EntriesAt(assets[..i], vin);
      ghost var after := EntriesAt(assets[..i + 1], vin);
      assert assets[..i + 1][..i] == assets[..i];
      assert after == before + [Entry(a.assetId, input)];
      if !lib.inputOk(input) {
        Refused(lib, assets, vin, i);
        return false, m';
      }
      assert es + after == (es + before) + [Entry(a.assetId, input)];
      m' := Register(m', a.assetId, input, es + before);
    }
    assert assets[..|assets|] == assets;
    ok := true;
  }

  lemma {:induction false} Refused(lib: PacketLib, assets: seq<AssetEntry>, vin: u16, i: nat)
    requires i < |assets| && !lib.inputOk(AssetInput(vin, assets[i].amount))
    ensures !InputsAccepted(lib, EntriesAt(assets, vin))
    decreases |assets|
  {
    var es := EntriesAt(assets, vin);
    if i == |assets| - 1 {
      assert !lib.inputOk(es[|es| - 1].input);
    } else {
      Refused(lib, assets[..|assets| - 1], vin, i);
      var j :| 0 <= j < |EntriesAt(assets[..|assets| - 1], vin)|
        && !lib.inputOk(EntriesAt(assets[..|assets| - 1], vin)[j].input);
      assert !lib.inputOk(es[j].input);
    }
  }

  lemma AcceptedConcat(lib: PacketLib, a: seq<Entry>, b: seq<Entry>)
    ensures InputsAccepted(lib, a + b) <==> InputsAccepted(lib, a) && InputsAccepted(lib, b)
  {
    if InputsAccepted(lib, a + b) {
      assert forall i | 0 <= i < |a| :: a[i] == (a + b)[i];
      assert forall i | 0 <= i < |b| :: b[i] == (a + b)[|a| + i];
    }
  }

  /** One more input appends its block of entries. */
  lemma EntriesStep(lib: PacketLib, ins: seq<Vtxo>, i: nat)
    requires i < |ins|
    ensures var block := EntriesAt(ins[i].assets, i % TWO16);
            && Entries(ins[..i + 1]) == Entries(ins[..i]) + block
            && (InputsAccepted(lib, Entries(ins[..i + 1]))
                <==> InputsAccepted(lib, Entries(ins[..i])) && InputsAccepted(lib, block))
  {
    assert ins[..i + 1][..i] == ins[..i];
    AcceptedConcat(lib, Entries(ins[..i]), EntriesAt(ins[i].assets, i % TWO16));
  }

  lemma {:induction false} RefusedPrefix(lib: PacketLib, ins: seq<Vtxo>, n: nat)
    requires n <= |ins| && !InputsAccepted(lib, Entries(ins[..n]))
    ensures !InputsAccepted(lib, Entries(ins))
    decreases |ins| - n
  {
    if n < |ins| {
      EntriesStep(lib, ins, n);
      RefusedPrefix(lib, ins, n + 1);
    } else {
      assert ins[..n] == ins;
    }
  }

  /** Registers the swap VTXO at input 0 and the taker's VTXOs at inputs 1, 2, ... */
  method RegisterInputs(lib: PacketLib, swap: Vtxo, taker: seq<TakerVtxo>, ghost ins: seq<Vtxo>)
    returns (ok: bool, m: Transfers)
    requires |ins| == 1 + |taker| && ins[0] == swap
    requires forall i | 0 <= i < |taker| :: ins[i + 1] == taker[i].vtxo
    ensures fresh(m.Values)
    ensures ok ==> HasInputs(m, Entries(ins)) && NoOutputs(m)
    ensures ok <==> InputsAccepted(lib, Entries(ins))
  {
    m := map[];
    assert ins[..0] == [];
    EntriesStep(lib, ins, 0);
    ok, m := RegisterVtxo(lib, m, swap.assets, 0, []);
    if !ok {
      RefusedPrefix(lib, ins, 1);
      return;
    }
    for i := 0 to |taker|
      invariant ok && fresh(m.Values)
      invariant HasInputs(m, Entries(ins[..i + 1])) && NoOutputs(m)
      invariant InputsAccepted(lib, Entries(ins[..i + 1]))
    {
      var inputIdx := (i + 1) % TWO16;
      EntriesStep(lib, ins, i + 1);
      ok, m := RegisterVtxo(lib, m, taker[i].vtxo.assets, inputIdx, Entries(ins[..i + 1]));
      if !ok {
        RefusedPrefix(lib, ins, i + 2);
        return;
      }
    }
    assert ins[..|taker| + 1] == ins;
  }

  /** The uint64 running total of a transfer's inputs. */
  method TotalIn(ins: seq<AssetInput>) returns (total: u64)
    ensures total == Sum(InputAmounts(ins)) % TWO64
  {
    total := 0;
    for i := 0 to |ins|
      invariant total == Sum(InputAmounts(ins[..i])) % TWO64
    {
      total := AddU64(total, ins[i].amount);
      assert InputAmounts(ins[..i + 1])[..i] == InputAmounts(ins[..i]);
    }
    assert ins[..|ins|] == ins;
  }

  method TotalOut(outs: seq<AssetOutput>) returns (total: u64)
    ensures total == Sum(OutputAmounts(outs)) % TWO64
  {
    total := 0;
    for i := 0 to |outs|
      invariant total == Sum(OutputAmounts(outs[..i])) % TWO64
    {
      total := AddU64(total, outs[i].amount);
      assert OutputAmounts(outs[..i + 1])[..i] == OutputAmounts(outs[..i]);
    }
    assert outs[..|outs|] == outs;
  }

  predicate ChangeOk(lib: PacketLib, ins: seq<AssetInput>, outs: seq<AssetOutput>)
  {
    Change(ins, outs) == [] || lib.outputOk(Change(ins, outs)[0])
  }

  /** Sends what is left of one transfer to output 1. */
  method AddChangeTo(lib: PacketLib, t: AssetTransfer) returns (ok: bool)
    modifies t
    ensures t.inputs == old(t.inputs)
    ensures ok <==> ChangeOk(lib, old(t.inputs), old(t.outputs))
    ensures ok ==> t.outputs == old(t.outputs) + Change(old(t.inputs), old(t.outputs))
  {
    var totalIn := TotalIn(t.inputs);
    var totalOut := TotalOut(t.outputs);
    ok := true;
    if totalIn > totalOut {
      var output := AssetOutput(1, totalIn - totalOut);
      if !lib.outputOk(output) {
        return false;
      }
      t.outputs := t.outputs + [output];
    }
  }

  /** Walks the transfers in an arbitrary order and sends what is left of each to output 1. */
  method AddChange(lib: PacketLib, m: Transfers) returns (ok: bool)
    requires NoAliases(m)
    modifies m.Values
    ensures ok ==> forall k | k in m ::
                     && m[k].inputs == old(m[k].inputs)
                     && m[k].outputs == old(m[k].outputs) + Change(old(m[k].inputs), old(m[k].outputs))
    ensures ok <==> forall k | k in m :: ChangeOk(lib, old(m[k].inputs), old(m[k].outputs))
  {
    var todo := m.Keys;
    while todo != {}
      invariant todo <= m.Keys
      invariant forall k | k in m :: m[k].inputs == old(m[k].inputs)
      invariant forall k | k in todo :: m[k].outputs == old(m[k].outputs)
      invariant forall k | k in m && k !in todo ::
                  && m[k].outputs == old(m[k].outputs) + Change(old(m[k].inputs), old(m[k].outputs))
                  && ChangeOk(lib, old(m[k].inputs), old(m[k].outputs))
      decreases todo
    {
      var k :| k in todo;
      assert m[k] in m.Values;
      ok := AddChangeTo(lib, m[k]);
      if !ok {
        return;
      }
      todo := todo - {k};
    }
    ok := true;
  }

  lemma OutputsAcceptedIff(lib: PacketLib, o: Offer, es: seq<Entry>, id: AssetName)
    ensures var r := Routed(lib, o, id);
            OutputsAccepted(lib, o, es, id)
            <==> (r == [] || lib.outputOk(r[0])) && ChangeOk(lib, InputsOf(es, id), r)
  {
    var r, c, outs := Routed(lib, o, id), Change(InputsOf(es, id), Routed(lib, o, id)), OutputsOf(lib, o, es, id);
    if r != [] { assert outs[0] == r[0]; }
    if c != [] { assert outs[|r|] == c[0]; }
  }

  /** Routes the wanted asset to output 0 and the rest of every asset to output 1. */
  method RouteOutputs(lib: PacketLib, o: Offer, m: Transfers, ghost es: seq<Entry>)
    returns (r: Result<(), PacketError>)
    requires HasInputs(m, es) && NoOutputs(m)
    modifies m.Values
    ensures r.Ok? ==> HasInputs(m, es) && HasOutputs(m, lib, o, es)
    ensures r.Ok? <==> WantFound(lib, o, es) && forall k | k in Ids(es) :: OutputsAccepted(lib, o, es, k)
    ensures r == Err(WantNotFound) <==> !WantFound(lib, o, es)
  {
    forall k | k in m
      ensures OutputsAccepted(lib, o, es, k)
              <==> (Routed(lib, o, k) == [] || lib.outputOk(Routed(lib, o, k)[0]))
                   && ChangeOk(lib, InputsOf(es, k), Routed(lib, o, k))
    {
      OutputsAcceptedIff(lib, o, es, k);
    }
    if o.wantAsset.Some? {
      var want := lib.printId(o.wantAsset.value);
      if want !in m {
        return Err(WantNotFound);
      }
      var output := AssetOutput(0, o.wantAmount);
      if !lib.outputOk(output) {
        return Err(OutputRefused);
      }
      var t := m[want];
      assert t in m.Values;
      t.outputs := t.outputs + [output];
    }
    assert forall k | k in m :: m[k].inputs == InputsOf(es, k) && m[k].outputs == Routed(lib, o, k);
    var ok := AddChange(lib, m);
    r := if ok then Ok(()) else Err(OutputRefused);
  }

  /** The listing so far: some assets, each once, the wanted one first if there is one. */
  ghost predicate Listed(lib: PacketLib, o: Offer, order: seq<AssetName>, ids: set<AssetName>, todo: set<AssetName>)
  {
    && NoDup(order)
    && (forall k :: k in ids <==> k in order || k in todo)
    && (forall k | k in order :: k !in todo)
    && (o.wantAsset.Some? ==> order != [] && order[0] == lib.printId(o.wantAsset.value))
  }

  lemma ListOneMore(lib: PacketLib, o: Offer, es: seq<Entry>, order: seq<AssetName>, todo: set<AssetName>, k: AssetName)
    requires Listed(lib, o, order, Ids(es), todo) && k in todo
    ensures Listed(lib, o, order + [k], Ids(es), todo - {k})
    ensures GroupsOf(lib, o, es, order + [k]) == GroupsOf(lib, o, es, order) + [GroupOf(lib, o, es, k)]
  {
    assert forall x :: x in order + [k] <==> x in order || x == k;
  }

  lemma ListedAll(lib: PacketLib, o: Offer, es: seq<Entry>, order: seq<AssetName>)
    requires Listed(lib, o, order, Ids(es), {})
    ensures IsOrder(lib, o, es, order)
  {
  }

  /** One group: the asset's parsed ID with the transfer's inputs and outputs. */
  method MakeGroup(lib: PacketLib, o: Offer, k: AssetName, t: AssetTransfer, ghost es: seq<Entry>)
    returns (r: Result<AssetGroup, PacketError>)
    requires t.inputs == InputsOf(es, k) && t.outputs == OutputsOf(lib, o, es, k) && !Wanted(lib, o, k)
    ensures r.Ok? <==> GroupAccepted(lib, o, es, k)
    ensures r != Err(WantNotFound)
    ensures r.Ok? ==> r.value == GroupOf(lib, o, es, k)
  {
    var assetId := lib.parseId(k);
    if assetId == None {
      return Err(BadAssetId);
    }
    var group := AssetGroup(assetId.value, t.inputs, t.outputs);
    if !lib.groupOk(group) {
      return Err(GroupRefused);
    }
    r := Ok(group);
  }

  /** Lists the groups, the wanted asset first and the others in an arbitrary order. */
  method CollectGroups(lib: PacketLib, o: Offer, m: Transfers, ghost es: seq<Entry>)
    returns (r: Result<seq<AssetGroup>, PacketError>, ghost order: seq<AssetName>)
    requires HasInputs(m, es) && HasOutputs(m, lib, o, es) && WantFound(lib, o, es)
    ensures r.Ok? ==> IsOrder(lib, o, es, order) && r.value == GroupsOf(lib, o, es, order)
    ensures r.Ok? <==> forall k | k in m :: GroupAccepted(lib, o, es, k)
    ensures r != Err(WantNotFound)
  {
    var groups: seq<AssetGroup> := [];
    order := [];
    var todo := m.Keys;
    if o.wantAsset.Some? {
      var want := lib.printId(o.wantAsset.value);
      var t := m[want];
      var group := AssetGroup(o.wantAsset.value, t.inputs, t.outputs);
      assert group == GroupOf(lib, o, es, want);
      if !lib.groupOk(group) {
        return Err(GroupRefused), order;
      }
      groups := [group];
      order := [want];
      todo := todo - {want};
    }
    while todo != {}
      invariant todo <= m.Keys
      invariant Listed(lib, o, order, Ids(es), todo)
      invariant groups == GroupsOf(lib, o, es, order)
      invariant forall k | k in m && k !in todo :: GroupAccepted(lib, o, es, k)
      decreases todo
    {
      var k :| k in todo;
      var group := MakeGroup(lib, o, k, m[k], es);
      if group.Err? {
        return Err(group.error), order;
      }
      ListOneMore(lib, o, es, order, todo, k);
      groups := groups + [group.value];
      order := order + [k];
      todo := todo - {k};
    }
    ListedAll(lib, o, es, order);
    r := Ok(groups);
  }

  lemma SomeAssets(es: seq<Entry>)
    ensures es != [] ==> Ids(es) != {}
  {
    if es != [] {
      assert es[0].id in Ids(es);
    }
  }

  /**
   * buildFulfillAssetPacket: no packet when no input holds an asset; otherwise a packet with the
   * groups of all input assets in some order with the wanted one first, or an error exactly when a
   * constructor refuses or the wanted asset is missing.
   */
  method BuildAssetPacket(lib: PacketLib, swap: Vtxo, taker: seq<TakerVtxo>, o: Offer)
    returns (r: Result<Option<seq<AssetGroup>>, PacketError>, ghost order: seq<AssetName>)
    ensures var es := Entries(TxInputs(swap, taker)); r == Ok(None) <==> es == []
    ensures var es := Entries(TxInputs(swap, taker));
            r == Err(WantNotFound) <==> es != [] && InputsAccepted(lib, es) && !WantFound(lib, o, es)
    ensures var es := Entries(TxInputs(swap, taker));
            es != [] && r.Ok? ==>
              && Routable(lib, o, es)
              && IsOrder(lib, o, es, order)
              && r.value == Some(GroupsOf(lib, o, es, order))
              && lib.packetOk(GroupsOf(lib, o, es, order))
    ensures var es := Entries(TxInputs(swap, taker));
            r.Err? ==>
              || !Routable(lib, o, es)
              || (IsOrder(lib, o, es, order) && !lib.packetOk(GroupsOf(lib, o, es, order)))
  {
    ghost var es := Entries(TxInputs(swap, taker));
    order := [];
    var ok, m := RegisterInputs(lib, swap, taker, TxInputs(swap, taker));
    if !ok {
      return Err(InputRefused), order;
    }
    if |m| == 0 {
      assert m.Keys == {};
      SomeAssets(es);
      return Ok(None), order;
    }
    var routed := RouteOutputs(lib, o, m, es);
    if routed.Err? {
      return Err(routed.error), order;
    }
    var groups;
    groups, order := CollectGroups(lib, o, m, es);
    if groups.Err? {
      return Err(groups.error), order;
    }
    if !lib.packetOk(groups.value) {
      return Err(PacketRefused), order;
    }
    r := Ok(Some(groups.value));
  }
}

/** buildFulfillAssetPacket of pkg/contract/taker.go: which assets go where, as a specification. */
module Routing {
  import opened Base
  import opened Offers
  import opened Script
  import opened Wallet

  /** The ark-lib asset constructors; each either refuses its arguments or returns them. */
  datatype PacketLib = PacketLib(
    printId: AssetId -> AssetName,
    parseId: AssetName -> Option<AssetId>,
    inputOk: AssetInput -> bool,
    outputOk: AssetOutput -> bool,
    groupOk: AssetGroup -> bool,
    packetOk: seq<AssetGroup> -> bool)

  /** The assumption on asset ID strings: they are canonical. */
  ghost predicate Canonical(lib: PacketLib)
  {
    forall s :: lib.parseId(s).Some? ==> lib.printId(lib.parseId(s).value) == s
  }

  /** One asset balance of one transaction input. */
  datatype Entry = Entry(id: AssetName, input: AssetInput)

  /** Input 0 is the swap VTXO, inputs 1.. are the taker's. */
  function TxInputs(swap: Vtxo, taker: seq<TakerVtxo>): (ins: seq<Vtxo>)
    ensures |ins| == 1 + |taker| && ins[0] == swap
  {
    [swap] + Vtxos(taker)
  }

  function EntriesAt(assets: seq<AssetEntry>, vin: u16): seq<Entry>
  {
    if assets == [] then []
    else
      var a := assets[|assets| - 1];
      EntriesAt(assets[..|assets| - 1], vin) + [Entry(a.assetId, AssetInput(vin, a.amount))]
  }

  /** All asset balances in input order; the input index is cut to a uint16. */
  function Entries(ins: seq<Vtxo>): seq<Entry>
  {
    if ins == [] then []
    else Entries(ins[..|ins| - 1]) + EntriesAt(ins[|ins| - 1].assets, (|ins| - 1) % TWO16)
  }

  function Ids(es: seq<Entry>): set<AssetName>
  {
    set i | 0 <= i < |es| :: es[i].id
  }

  /** The inputs of one asset's transfer. */
  function InputsOf(es: seq<Entry>, id: AssetName): seq<AssetInput>
  {
    if es == [] then []
    else
      var e := es[|es| - 1];
      InputsOf(es[..|es| - 1], id) + if e.id == id then [e.input] else []
  }

  function InputAmounts(ins: seq<AssetInput>): (r: seq<int>)
    ensures |r| == |ins|
  {
    seq(|ins|, i requires 0 <= i < |ins| => ins[i].amount as int)
  }

  function OutputAmounts(outs: seq<AssetOutput>): (r: seq<int>)
    ensures |r| == |outs|
  {
    seq(|outs|, i requires 0 <= i < |outs| => outs[i].amount as int)
  }

  predicate Wanted(lib: PacketLib, o: Offer, id: AssetName)
  {
    o.wantAsset.Some? && lib.printId(o.wantAsset.value) == id
  }

  /** What goes to the maker: WantAmount of the wanted asset, to output 0. */
  function Routed(lib: PacketLib, o: Offer, id: AssetName): seq<AssetOutput>
  {
    if Wanted(lib, o, id) then [AssetOutput(0, o.wantAmount)] else []
  }

  /** What is left of one asset, in uint64 arithmetic, goes to output 1. */
  function Change(ins: seq<AssetInput>, outs: seq<AssetOutput>): seq<AssetOutput>
  {
    var totalIn, totalOut := Sum(InputAmounts(ins)) % TWO64, Sum(OutputAmounts(outs)) % TWO64;
    if totalIn > totalOut then [AssetOutput(1, totalIn - totalOut)] else []
  }

  function OutputsOf(lib: PacketLib, o: Offer, es: seq<Entry>, id: AssetName): seq<AssetOutput>
  {
    Routed(lib, o, id) + Change(InputsOf(es, id), Routed(lib, o, id))
  }

  function GroupId(lib: PacketLib, o: Offer, id: AssetName): Option<AssetId>
  {
    if Wanted(lib, o, id) then o.wantAsset else lib.parseId(id)
  }

  function GroupOf(lib: PacketLib, o: Offer, es: seq<Entry>, id: AssetName): AssetGroup
  {
    var assetId := GroupId(lib, o, id);
    AssetGroup(if assetId.Some? then assetId.value else AssetId([], 0),
               InputsOf(es, id), OutputsOf(lib, o, es, id))
  }

  function GroupsOf(lib: PacketLib, o: Offer, es: seq<Entry>, order: seq<AssetName>): (g: seq<AssetGroup>)
    ensures |g| == |order|
    ensures forall i | 0 <= i < |order| :: g[i] == GroupOf(lib, o, es, order[i])
  {
    seq(|order|, i requires 0 <= i < |order| => GroupOf(lib, o, es, order[i]))
  }

  predicate NoDup<T(==)>(s: seq<T>)
  {
    forall i, j | 0 <= i < j < |s| :: s[i] != s[j]
  }

  /** A listing of all input assets, each once, with the wanted one first. */
  predicate IsOrder(lib: PacketLib, o: Offer, es: seq<Entry>, order: seq<AssetName>)
  {
    && NoDup(order)
    && (set id | id in order) == Ids(es)
    && (o.wantAsset.Some? ==> order != [] && order[0] == lib.printId(o.wantAsset.value))
  }

  // Which constructor calls go through.

  predicate InputsAccepted(lib: PacketLib, es: seq<Entry>)
  {
    forall i | 0 <= i < |es| :: lib.inputOk(es[i].input)
  }

  predicate WantFound(lib: PacketLib, o: Offer, es: seq<Entry>)
  {
    o.wantAsset.Some? ==> lib.printId(o.wantAsset.value) in Ids(es)
  }

  predicate OutputsAccepted(lib: PacketLib, o: Offer, es: seq<Entry>, id: AssetName)
  {
    forall i | 0 <= i < |OutputsOf(lib, o, es, id)| :: lib.outputOk(OutputsOf(lib, o, es, id)[i])
  }

  predicate GroupAccepted(lib: PacketLib, o: Offer, es: seq<Entry>, id: AssetName)
  {
    GroupId(lib, o, id).Some? && lib.groupOk(GroupOf(lib, o, es, id))
  }

  /** No constructor short of the final packet refuses. */
  predicate Routable(lib: PacketLib, o: Offer, es: seq<Entry>)
  {
    && InputsAccepted(lib, es)
    && WantFound(lib, o, es)
    && forall id | id in Ids(es) :: OutputsAccepted(lib, o, es, id) && GroupAccepted(lib, o, es, id)
  }

  // ---------------------------------------------------------------------------
  // Lists of entries.

  lemma {:induction false} InputsOfConcat(a: seq<Entry>, b: seq<Entry>, id: AssetName)
    ensures InputsOf(a + b, id) == InputsOf(a, id) + InputsOf(b, id)
    decreases |b|
  {
    if b == [] {
      assert a + b == a;
    } else {
      assert (a + b)[..|a + b| - 1] == a + b[..|b| - 1];
      InputsOfConcat(a, b[..|b| - 1], id);
    }
  }

  lemma InputsOfSnoc(es: seq<Entry>, e: Entry, id: AssetName)
    ensures InputsOf(es + [e], id) == InputsOf(es, id) + if e.id == id then [e.input] else []
  {
    assert (es + [e])[..|es|] == es;
  }

  lemma IdsSnoc(es: seq<Entry>, e: Entry)
    ensures Ids(es + [e]) == Ids(es) + {e.id}
  {
    var all := es + [e];
    assert all[|es|] == e;
    forall id | id in Ids(es) ensures id in Ids(all) {
      var i :| 0 <= i < |es| && es[i].id == id;
      assert all[i].id == id;
    }
  }

  lemma {:induction false} NoInputs(es: seq<Entry>, id: AssetName)
    requires id !in Ids(es)
    ensures InputsOf(es, id) == []
  {
    if es != [] {
      var front, e := es[..|es| - 1], es[|es| - 1];
      assert es == front + [e];
      IdsSnoc(front, e);
      NoInputs(front, id);
    }
  }

  // ---------------------------------------------------------------------------
  // Where the assets go.

  /** What an output list of at most one entry hands out. */
  lemma OneOutput(outs: seq<AssetOutput>)
    requires |outs| <= 1
    ensures var n := if outs == [] then 0 else outs[0].amount as int;
            && Sum(OutputAmounts(outs)) == n
            && forall vout: int :: Reaching(outs, vout) == if outs != [] && outs[0].vout == vout then n else 0
  {
    if outs != [] {
      assert outs[..0] == [] && OutputAmounts(outs)[..0] == [];
    }
  }

  lemma {:induction false} OutputsConcat(a: seq<AssetOutput>, b: seq<AssetOutput>, vout: int)
    ensures Sum(OutputAmounts(a + b)) == Sum(OutputAmounts(a)) + Sum(OutputAmounts(b))
    ensures Reaching(a + b, vout) == Reaching(a, vout) + Reaching(b, vout)
    decreases |b|
  {
    if b == [] {
      assert a + b == a;
    } else {
      assert (a + b)[..|a + b| - 1] == a + b[..|b| - 1];
      OutputsConcat(a, b[..|b| - 1], vout);
      assert OutputAmounts(a + b)[..|a + b| - 1] == OutputAmounts(a + b[..|b| - 1]);
      assert OutputAmounts(b)[..|b| - 1] == OutputAmounts(b[..|b| - 1]);
    }
  }

  lemma TotalNonNegative(ins: seq<AssetInput>)
    ensures Sum(InputAmounts(ins)) >= 0
  {
    SumNonNegative(InputAmounts(ins));
  }

  /** Outputs for `want` units at output 0, if wanted, and the rest of the uint64 total at output 1. */
  lemma RouteAmounts(routed: seq<AssetOutput>, ins: seq<AssetInput>, want: int)
    requires (routed == [] && want == 0) || (0 <= want < TWO64 && routed == [AssetOutput(0, want)])
    ensures var total, outs := Sum(InputAmounts(ins)) % TWO64, routed + Change(ins, routed);
            && Reaching(outs, 0) == want
            && Reaching(outs, 1) == (if total > want then total - want else 0)
            && Sum(OutputAmounts(outs)) == Reaching(outs, 0) + Reaching(outs, 1)
  {
    OneOutput(routed);
    var change := Change(ins, routed);
    OneOutput(change);
    OutputsConcat(routed, change, 0);
    OutputsConcat(routed, change, 1);
  }

  /** The units of an asset the maker is to get. */
  function WantOf(lib: PacketLib, o: Offer, id: AssetName): u64
  {
    if Wanted(lib, o, id) then o.wantAmount else 0
  }

  /**
   * Routing of one asset: exactly WantAmount of the wanted asset and nothing of any other reaches
   * output 0, output 1 gets what is left of the uint64 total, and units are conserved exactly when
   * the inputs cover the want and their true total fits a uint64.
   */
  lemma AssetConserved(lib: PacketLib, o: Offer, es: seq<Entry>, id: AssetName)
    ensures var total, outs := Sum(InputAmounts(InputsOf(es, id))), OutputsOf(lib, o, es, id);
            var want := WantOf(lib, o, id);
            && Reaching(outs, 0) == want
            && Reaching(outs, 1) == (if total % TWO64 > want then total % TWO64 - want else 0)
            && (forall i | 0 <= i < |outs| :: outs[i].vout in {0, 1})
            && Sum(OutputAmounts(outs)) == Reaching(outs, 0) + Reaching(outs, 1)
            && (Sum(OutputAmounts(outs)) == total <==> want <= total < TWO64)
  {
    TotalNonNegative(InputsOf(es, id));
    RouteAmounts(Routed(lib, o, id), InputsOf(es, id), WantOf(lib, o, id));
    HandedOutIff(Sum(InputAmounts(InputsOf(es, id))), WantOf(lib, o, id));
  }

  /** The want and what a uint64 total leaves of it add up to the true total iff that covers the want and fits. */
  lemma HandedOutIff(total: nat, want: u64)
    ensures want + (if total % TWO64 > want then total % TWO64 - want else 0) == total <==> want <= total < TWO64
  {
    if total < TWO64 {
      assert total % TWO64 == total;
    } else {
      assert 0 <= total % TWO64 < TWO64;
    }
  }

  /** Two inputs of 2^63 units each of one asset, which a want of one unit leaves nothing to return of. */
  lemma OverflowLosesUnits(lib: PacketLib, o: Offer, id: AssetName)
    requires Wanted(lib, o, id) && o.wantAmount == 1
    ensures var e := Entry(id, AssetInput(0, TWO63));
            && Sum(InputAmounts(InputsOf([e, e], id))) == TWO64
            && Sum(OutputAmounts(OutputsOf(lib, o, [e, e], id))) == 1
  {
    var e := Entry(id, AssetInput(0, TWO63));
    InputsOfSnoc([e], e, id);
    InputsOfSnoc([], e, id);
    assert [e, e] == [e] + [e] && [e] == [] + [e];
    var amounts := InputAmounts(InputsOf([e, e], id));
    assert amounts == [TWO63, TWO63];
    assert amounts[..1] == [TWO63] && [TWO63][..0] == [];
    AssetConserved(lib, o, [e, e], id);
  }

  /** The wanted asset's group is at index 0, pays the maker first, and appears nowhere else. */
  lemma WantedFirst(lib: PacketLib, o: Offer, es: seq<Entry>, order: seq<AssetName>)
    requires Canonical(lib) && IsOrder(lib, o, es, order) && o.wantAsset.Some?
    requires forall i | 0 <= i < |order| :: GroupId(lib, o, order[i]).Some?
    ensures var g := GroupsOf(lib, o, es, order);
            && |g| > 0 && g[0].assetId == o.wantAsset.value
            && |g[0].outputs| > 0 && g[0].outputs[0] == AssetOutput(0, o.wantAmount)
            && forall i | 0 < i < |g| :: g[i].assetId != o.wantAsset.value
  {
    forall i | 0 < i < |order| ensures GroupsOf(lib, o, es, order)[i].assetId != o.wantAsset.value {
      assert order[i] != order[0];
    }
  }

  lemma {:induction false} MapPermutation(lib: PacketLib, o: Offer, es: seq<Entry>, a: seq<AssetName>, b: seq<AssetName>)
    requires multiset(a) == multiset(b)
    ensures multiset(GroupsOf(lib, o, es, a)) == multiset(GroupsOf(lib, o, es, b))
    decreases |a|
  {
    if a == [] {
      assert |multiset(b)| == 0;
    } else {
      assert a[0] in multiset(b);
      var i :| 0 <= i < |b| && b[i] == a[0];
      RemoveAtMultiset(a, 0);
      RemoveAtMultiset(b, i);
      MapPermutation(lib, o, es, RemoveAt(a, 0), RemoveAt(b, i));
      MapRemoveAt(lib, o, es, a, 0);
      MapRemoveAt(lib, o, es, b, i);
    }
  }

  lemma MapRemoveAt(lib: PacketLib, o: Offer, es: seq<Entry>, s: seq<AssetName>, i: nat)
    requires i < |s|
    ensures multiset(GroupsOf(lib, o, es, s))
            == multiset(GroupsOf(lib, o, es, RemoveAt(s, i))) + multiset{GroupOf(lib, o, es, s[i])}
  {
    var g := GroupsOf(lib, o, es, s);
    RemoveAtMultiset(g, i);
    assert GroupsOf(lib, o, es, RemoveAt(s, i)) == RemoveAt(g, i);
    assert g[i] in multiset(g);
  }

  lemma {:induction false} NoDupCount<T>(s: seq<T>, x: T)
    requires NoDup(s)
    ensures multiset(s)[x] == if x in s then 1 else 0
  {
    if s != [] {
      var front, y := s[..|s| - 1], s[|s| - 1];
      assert s == front + [y];
      NoDupCount(front, x);
    }
  }

  /** Two walks over the transfer map give the same groups; only those after the wanted one may swap places. */
  lemma OrdersAgree(lib: PacketLib, o: Offer, es: seq<Entry>, a: seq<AssetName>, b: seq<AssetName>)
    requires IsOrder(lib, o, es, a) && IsOrder(lib, o, es, b)
    ensures multiset(GroupsOf(lib, o, es, a)) == multiset(GroupsOf(lib, o, es, b))
    ensures o.wantAsset.Some? ==> GroupsOf(lib, o, es, a)[0] == GroupsOf(lib, o, es, b)[0]
  {
    forall x: AssetName ensures multiset(a)[x] == multiset(b)[x] {
      NoDupCount(a, x);
      NoDupCount(b, x);
      assert x in a <==> x in Ids(es);
      assert x in b <==> x in Ids(es);
    }
    MapPermutation(lib, o, es, a, b);
  }

  // ---------------------------------------------------------------------------
  // Which input an asset input names.

  /** The amounts a transfer takes from transaction input k. */
  function TakenFrom(ins: seq<AssetInput>, k: int): seq<u64>
  {
    if ins == [] then []
    else TakenFrom(ins[..|ins| - 1], k) + if ins[|ins| - 1].vin == k then [ins[|ins| - 1].amount] else []
  }

  /** The amounts of one asset that a VTXO holds. */
  function Held(assets: seq<AssetEntry>, id: AssetName): seq<u64>
  {
    if assets == [] then []
    else Held(assets[..|assets| - 1], id)
         + if assets[|assets| - 1].assetId == id then [assets[|assets| - 1].amount] else []
  }

  /** Every transfer takes from every input exactly what that input holds, entry by entry. */
  ghost predicate Aligned(ins: seq<Vtxo>)
  {
    forall id: AssetName, k | 0 <= k < |ins| :: TakenFrom(InputsOf(Entries(ins), id), k) == Held(ins[k].assets, id)
  }

  /** No asset sits at an input index beyond the uint16 range. */
  predicate AssetsInRange(ins: seq<Vtxo>)
  {
    forall k | TWO16 <= k < |ins| :: ins[k].assets == []
  }

  lemma {:induction false} TakenConcat(a: seq<AssetInput>, b: seq<AssetInput>, k: int)
    ensures TakenFrom(a + b, k) == TakenFrom(a, k) + TakenFrom(b, k)
    decreases |b|
  {
    if b == [] {
      assert a + b == a;
    } else {
      assert (a + b)[..|a + b| - 1] == a + b[..|b| - 1];
      TakenConcat(a, b[..|b| - 1], k);
    }
  }

  lemma {:induction false} TakenFromBlock(assets: seq<AssetEntry>, vin: u16, id: AssetName, k: int)
    ensures TakenFrom(InputsOf(EntriesAt(assets, vin), id), k) == if vin == k then Held(assets, id) else []
  {
    if assets != [] {
      var front, a := assets[..|assets| - 1], assets[|assets| - 1];
      TakenFromBlock(front, vin, id, k);
      InputsOfSnoc(EntriesAt(front, vin), Entry(a.assetId, AssetInput(vin, a.amount)), id);
      if a.assetId == id {
        var one := [AssetInput(vin, a.amount)];
        TakenConcat(InputsOf(EntriesAt(front, vin), id), one, k);
        assert one[..0] == [];
      } else {
        assert InputsOf(EntriesAt(assets, vin), id) == InputsOf(EntriesAt(front, vin), id);
      }
    }
  }

  lemma TakenFromLast(ins: seq<Vtxo>, id: AssetName, k: nat)
    requires ins != []
    ensures var front, n := ins[..|ins| - 1], |ins| - 1;
            TakenFrom(InputsOf(Entries(ins), id), k)
            == TakenFrom(InputsOf(Entries(front), id), k) + if n % TWO16 == k then Held(ins[n].assets, id) else []
  {
    var front, n := ins[..|ins| - 1], |ins| - 1;
    var block := EntriesAt(ins[n].assets, n % TWO16);
    InputsOfConcat(Entries(front), block, id);
    TakenConcat(InputsOf(Entries(front), id), InputsOf(block, id), k);
    TakenFromBlock(ins[n].assets, n % TWO16, id, k);
  }

  /** With assets in range, input k contributes its own holdings and no other input claims its index. */
  lemma {:induction false} TakenFromInputs(ins: seq<Vtxo>, id: AssetName, k: nat)
    requires AssetsInRange(ins)
    ensures TakenFrom(InputsOf(Entries(ins), id), k) == if k < |ins| then Held(ins[k].assets, id) else []
  {
    if ins != [] {
      var n := |ins| - 1;
      TakenFromInputs(ins[..n], id, k);
      TakenFromLast(ins, id, k);
      if n < TWO16 {
        assert n % TWO16 == n;
      } else {
        assert Held(ins[n].assets, id) == [];
      }
      if k < n {
        assert ins[..n][k] == ins[k];
      }
    }
  }

  lemma {:induction false} NothingTakenBeyond(ins: seq<AssetInput>, k: int)
    requires k >= TWO16
    ensures TakenFrom(ins, k) == []
  {
    if ins != [] {
      NothingTakenBeyond(ins[..|ins| - 1], k);
    }
  }

  /** Index alignment holds exactly when no asset sits beyond input 65535. */
  lemma AlignedIff(ins: seq<Vtxo>)
    ensures Aligned(ins) <==> AssetsInRange(ins)
  {
    if AssetsInRange(ins) {
      forall id: AssetName, k | 0 <= k < |ins|
        ensures TakenFrom(InputsOf(Entries(ins), id), k) == Held(ins[k].assets, id)
      {
        TakenFromInputs(ins, id, k);
      }
    }
    if k :| TWO16 <= k < |ins| && ins[k].assets != [] {
      var assets := ins[k].assets;
      var id := assets[|assets| - 1].assetId;
      NothingTakenBeyond(InputsOf(Entries(ins), id), k);
      assert TakenFrom(InputsOf(Entries(ins), id), k) != Held(assets, id);
    }
  }

  /** Every input index is that of a transaction input. */
  lemma {:induction false} InputIndexInRange(ins: seq<Vtxo>, i: nat)
    requires i < |Entries(ins)|
    ensures Entries(ins)[i].input.vin < |ins|
  {
    var front := ins[..|ins| - 1];
    if i < |Entries(front)| {
      InputIndexInRange(front, i);
    } else {
      BlockIndex(ins[|ins| - 1].assets, (|ins| - 1) % TWO16, i - |Entries(front)|);
    }
  }

  lemma {:induction false} BlockIndex(assets: seq<AssetEntry>, vin: u16, i: nat)
    requires i < |EntriesAt(assets, vin)|
    ensures EntriesAt(assets, vin)[i].input.vin == vin
  {
    var front := assets[..|assets| - 1];
    if i < |EntriesAt(front, vin)| {
      BlockIndex(front, vin, i);
    }
  }
}

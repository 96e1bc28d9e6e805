/** FulfillOffer of pkg/contract/taker.go: from a found offer to the transaction handed to the signers. */
module Fulfillment {
  import opened Base
  import opened Offers
  import opened OfferPrinter
  import opened Script
  import opened Covenant
  import opened Contract
  import opened Wallet
  import opened Routing
  import opened PacketBuilder

  datatype FulfillError =
    | Inconsistent
    | NoSwapVtxo
    | EmptyWallet
    | NoTakerVtxo
    | Btc(btc: BtcError)
    | Packet(packet: PacketError)
    | NoExtension

  /** The introspector is told to run `script` for input `vin`. */
  datatype IntrospectorEntry = IntrospectorEntry(vin: u16, script: seq<Op>)

  datatype Settlement = Settlement(
    inputs: seq<Vtxo>,
    outputs: seq<TxOut>,
    entry: IntrospectorEntry,
    packet: Option<seq<AssetGroup>>)

  /** What the chain and the wallet report to the taker. */
  datatype World = World(
    server: PubKey,
    swapVtxos: seq<Vtxo>,                  // spendable VTXOs at the swap script
    spendable: seq<Vtxo>,
    addresses: seq<WalletAddress>,
    takerPkScript: bytes,
    extension: (IntrospectorEntry, Option<seq<AssetGroup>>) -> Option<TxOut>)   // Extension.TxOut

  /** The transaction as the covenant sees it. */
  function View(s: Settlement): Tx
  {
    Tx(s.outputs, if s.packet.Some? then s.packet.value else [])
  }

  /** The maker's script is a version-1 witness script over its own bytes from the third on. */
  predicate PaysOwnProgram(pk: bytes)
    requires |pk| >= 2
  {
    WitnessProgram(pk) == Some((1, pk[2..]))
  }

  /** The maker and taker outputs carry the BTC split. */
  ghost predicate SettlesBtc(o: Offer, swap: Vtxo, taker: seq<TakerVtxo>, takerPkScript: bytes, outputs: seq<TxOut>)
  {
    && |outputs| >= 2
    && outputs[0].pkScript == o.makerPkScript && outputs[1].pkScript == takerPkScript
    && SplitBtc(o, Sats(Vtxos(taker)) % TWO64, swap.amount) == Ok(BtcSplit(outputs[0].value, outputs[1].value))
  }

  /** The packet holds the routed groups of the input assets, or is absent when there are none. */
  ghost predicate SettlesAssets(lib: PacketLib, o: Offer, es: seq<Entry>, packet: Option<seq<AssetGroup>>, order: seq<AssetName>)
  {
    && (packet == None <==> es == [])
    && (packet.Some? ==>
          Routable(lib, o, es) && IsOrder(lib, o, es, order) && packet.value == GroupsOf(lib, o, es, order))
  }

  /** The groups of all input assets in a listing's order, if there are any. */
  function PacketFor(lib: PacketLib, o: Offer, es: seq<Entry>, order: seq<AssetName>): Option<seq<AssetGroup>>
  {
    if es == [] then None else Some(GroupsOf(lib, o, es, order))
  }

  /** The constructors let the packet through: nothing to build, or every piece of it and the whole. */
  predicate PacketReady(lib: PacketLib, o: Offer, es: seq<Entry>, order: seq<AssetName>)
  {
    es == [] || (Routable(lib, o, es) && lib.packetOk(GroupsOf(lib, o, es, order)))
  }

  /** The offer is the contract it names, and there are VTXOs on both sides. */
  predicate InputsReady(tap: TapLib, o: Offer, w: World)
    requires |o.makerPkScript| >= 2 && o.introspectorPubkey.Some?
  {
    Consistent(tap, o, w.server) && w.swapVtxos != [] && Pick(w.addresses, w.spendable) != []
  }

  /** The taker can pay the maker's sats. */
  predicate BtcReady(o: Offer, w: World)
    requires w.swapVtxos != []
  {
    SplitBtc(o, Sats(Vtxos(Pick(w.addresses, w.spendable))) % TWO64, w.swapVtxos[0].amount).Ok?
  }

  /** The asset balances of the transaction FulfillOffer builds. */
  function EntriesFor(w: World): seq<Entry>
    requires w.swapVtxos != []
  {
    Entries(TxInputs(w.swapVtxos[0], Pick(w.addresses, w.spendable)))
  }

  /** The extension output can be built. */
  predicate ExtensionReady(lib: PacketLib, o: Offer, w: World, order: seq<AssetName>)
    requires |o.makerPkScript| >= 2 && w.swapVtxos != []
  {
    w.extension(IntrospectorEntry(0, Compile(o)), PacketFor(lib, o, EntriesFor(w), order)).Some?
  }

  lemma {:induction false} NothingToPick(addrs: seq<WalletAddress>)
    ensures Pick(addrs, []) == []
  {
    if addrs != [] {
      NothingToPick(addrs[..|addrs| - 1]);
    }
  }

  /** What a successful FulfillOffer has put together. */
  ghost predicate Settles(tap: TapLib, lib: PacketLib, o: Offer, w: World, s: Settlement, order: seq<AssetName>)
    requires |o.makerPkScript| >= 2 && o.introspectorPubkey.Some?
  {
    var taker := Pick(w.addresses, w.spendable);
    && Consistent(tap, o, w.server)
    && w.swapVtxos != [] && taker != []
    && s.inputs == TxInputs(w.swapVtxos[0], taker)
    && s.entry == IntrospectorEntry(0, Compile(o))
    && |s.outputs| == 3
    && SettlesBtc(o, w.swapVtxos[0], taker, w.takerPkScript, s.outputs)
    && SettlesAssets(lib, o, Entries(s.inputs), s.packet, order)
    && w.extension(s.entry, s.packet) == Some(s.outputs[2])
  }

  /** Rebuilds the swap contract and compares it with the one the offer names. */
  method CheckConsistent(tap: TapLib, o: Offer, server: PubKey) returns (ok: bool)
    requires |o.makerPkScript| >= 2 && o.introspectorPubkey.Some?
    ensures ok <==> Consistent(tap, o, server)
  {
    var closures, _ := VtxoScript(tap, o, server);
    var swapTapKey := tap.tapKey(closures);
    if swapTapKey == None {
      return false;
    }
    var swapPkScript := tap.p2tr(swapTapKey.value);
    ok := swapPkScript.Some? && swapPkScript.value == o.swapPkScript;
  }

  /** The transaction inputs: the swap VTXO, then the taker's in selection order. */
  method CollectInputs(swap: Vtxo, taker: seq<TakerVtxo>) returns (inputs: seq<Vtxo>)
    ensures inputs == TxInputs(swap, taker)
  {
    inputs := [swap];
    for i := 0 to |taker|
      invariant inputs == [swap] + Vtxos(taker[..i])
    {
      inputs := inputs + [taker[i].vtxo];
    }
    assert taker[..|taker|] == taker;
  }

  /** The maker and taker outputs, if the taker can pay. */
  method BuildOutputs(o: Offer, swap: Vtxo, taker: seq<TakerVtxo>, takerPkScript: bytes)
    returns (r: Result<seq<TxOut>, BtcError>)
    ensures r.Ok? <==> SplitBtc(o, Sats(Vtxos(taker)) % TWO64, swap.amount).Ok?
    ensures r.Err? ==> r.error == InsufficientBtc
    ensures r.Ok? ==> |r.value| == 2 && SettlesBtc(o, swap, taker, takerPkScript, r.value)
  {
    var total := TotalSats(taker);
    var split := SplitBtc(o, total, swap.amount);
    if split.Err? {
      return Err(split.error);
    }
    r := Ok([TxOut(split.value.maker, o.makerPkScript), TxOut(split.value.taker, takerPkScript)]);
  }

  /**
   * FulfillOffer up to signing: a settlement, or the first check that fails. `order` is the order in
   * which the walk over the transfer map listed the assets.
   */
  method FulfillOffer(tap: TapLib, lib: PacketLib, o: Offer, w: World)
    returns (r: Result<Settlement, FulfillError>, ghost order: seq<AssetName>)
    requires |o.makerPkScript| >= 2 && o.introspectorPubkey.Some?
    ensures r.Ok? ==> Settles(tap, lib, o, w, r.value, order)
    ensures r.Ok? <==> InputsReady(tap, o, w) && BtcReady(o, w) && PacketReady(lib, o, EntriesFor(w), order)
                       && ExtensionReady(lib, o, w, order)
    ensures r == Err(Inconsistent) <==> !Consistent(tap, o, w.server)
    ensures r == Err(NoSwapVtxo) <==> Consistent(tap, o, w.server) && w.swapVtxos == []
    ensures r == Err(EmptyWallet) <==> Consistent(tap, o, w.server) && w.swapVtxos != [] && w.spendable == []
    ensures r == Err(NoTakerVtxo)
            <==> Consistent(tap, o, w.server) && w.swapVtxos != [] && w.spendable != [] && Pick(w.addresses, w.spendable) == []
    ensures r == Err(Btc(InsufficientBtc)) <==> InputsReady(tap, o, w) && !BtcReady(o, w)
    ensures (r.Err? && r.error.Packet?)
            <==> InputsReady(tap, o, w) && BtcReady(o, w) && !PacketReady(lib, o, EntriesFor(w), order)
    ensures r == Err(Packet(WantNotFound))
            <==> InputsReady(tap, o, w) && BtcReady(o, w) && EntriesFor(w) != []
                 && InputsAccepted(lib, EntriesFor(w)) && !WantFound(lib, o, EntriesFor(w))
    ensures r == Err(NoExtension)
            <==> InputsReady(tap, o, w) && BtcReady(o, w) && PacketReady(lib, o, EntriesFor(w), order)
                 && !ExtensionReady(lib, o, w, order)
    ensures InputsReady(tap, o, w) && BtcReady(o, w) && EntriesFor(w) != [] && Routable(lib, o, EntriesFor(w))
            ==> IsOrder(lib, o, EntriesFor(w), order)
  {
    hide Pick, SplitBtc, Compile, Consistent, Entries, GroupsOf;
    order := [];
    var consistent := CheckConsistent(tap, o, w.server);
    if !consistent {
      return Err(Inconsistent), order;
    }
    if |w.swapVtxos| == 0 {
      return Err(NoSwapVtxo), order;
    }
    var swapVtxo := w.swapVtxos[0];
    if |w.spendable| == 0 {
      NothingToPick(w.addresses);
      return Err(EmptyWallet), order;
    }
    var taker, _ := SelectVtxos(w.addresses, w.spendable);
    if |taker| == 0 {
      return Err(NoTakerVtxo), order;
    }
    var outputs := BuildOutputs(o, swapVtxo, taker, w.takerPkScript);
    if outputs.Err? {
      return Err(Btc(outputs.error)), order;
    }
    var script := FulfillScript(o);
    var entry := IntrospectorEntry(0, script);
    var packet;
    packet, order := BuildAssetPacket(lib, swapVtxo, taker, o);
    if packet.Err? {
      return Err(Packet(packet.error)), order;
    }
    var ext := w.extension(entry, packet.value);
    if ext == None {
      return Err(NoExtension), order;
    }
    var inputs := CollectInputs(swapVtxo, taker);
    r := Ok(Settlement(inputs, outputs.value + [ext.value], entry, packet.value));
  }

  /**
   * The built transaction satisfies the compiled covenant exactly when the maker's script pays its
   * own program and, for an asset want, an asset packet was produced. The introspector is told to run
   * it for input 0, the swap VTXO, and it is the script that keys that VTXO's fulfil leaf.
   */
  lemma SettlementMeetsCovenant(tap: TapLib, lib: PacketLib, o: Offer, w: World, s: Settlement,
                                order: seq<AssetName>, hash: bytes -> bytes)
    requires |o.makerPkScript| >= 2 && o.introspectorPubkey.Some?
    requires Settles(tap, lib, o, w, s, order)
    ensures Accepts(s.entry.script, View(s), hash)
            <==> PaysOwnProgram(o.makerPkScript) && (o.wantAsset.Some? ==> s.packet.Some?)
    ensures s.entry.vin == 0 && s.inputs[0] == w.swapVtxos[0] && Enforces(s.entry.script, o)
    ensures tap.tweak(o.introspectorPubkey.value.x, s.entry.script)
            == Closures(tap, o, w.server)[0].keys[1].value
  {
    CompileEnforces(o);
    CovenantMeaning(o, View(s), hash);
    if o.wantAsset.Some? && s.packet.Some? {
      WantedGroupFirst(lib, o, Entries(s.inputs), order);
    }
  }

  /** The first group of a packet for an asset want is the wanted asset's and pays output 0 the wanted amount first. */
  lemma WantedGroupFirst(lib: PacketLib, o: Offer, es: seq<Entry>, order: seq<AssetName>)
    requires IsOrder(lib, o, es, order) && o.wantAsset.Some?
    ensures var g := GroupsOf(lib, o, es, order)[0];
            && g.assetId == o.wantAsset.value
            && Reaching(g.outputs, 0) == o.wantAmount
            && forall n: int :: HandsOut(g.outputs, 0, n) <==> n <= o.wantAmount
  {
    var g := GroupsOf(lib, o, es, order)[0];
    assert g == GroupOf(lib, o, es, order[0]) && Wanted(lib, o, order[0]);
    AssetConserved(lib, o, es, order[0]);
    assert g.outputs[0] == AssetOutput(0, o.wantAmount);
    forall n: int ensures HandsOut(g.outputs, 0, n) <==> n <= o.wantAmount {
      HandsOutIff(g.outputs, 0, n);
    }
  }

  /** A parsed offer's 34-byte maker script pays its own program iff it is OP_1 PUSH32. */
  lemma TaprootMaker(o: Offer)
    requires |o.makerPkScript| == 34
    ensures PaysOwnProgram(o.makerPkScript) <==> TaprootShaped(o.makerPkScript)
  {
    TaprootShapedIff(o.makerPkScript);
  }

  /**
   * For a taproot-shaped maker and a want below 2^63, the settlement really pays the maker what it
   * wants, named by its full ID: always for a BTC want, and for an asset want exactly when an asset
   * packet was produced.
   */
  lemma SettlementPaysMaker(tap: TapLib, lib: PacketLib, o: Offer, w: World, s: Settlement, order: seq<AssetName>)
    requires TaprootShaped(o.makerPkScript) && o.introspectorPubkey.Some? && o.wantAmount < TWO63
    requires Settles(tap, lib, o, w, s, order)
    ensures Pays(o, View(s)) <==> (o.wantAsset.Some? ==> s.packet.Some?)
  {
    var hash := (b: bytes) => b;
    SettlementMeetsCovenant(tap, lib, o, w, s, order, hash);
    TaprootMaker(o);
    if o.wantAsset.Some? && s.packet.Some? {
      WantedGroupFirst(lib, o, Entries(s.inputs), order);
    }
    PaysIff(o, View(s), hash);
  }

  /**
   * Whenever a packet was produced for an asset want, the maker's output receives exactly WantAmount
   * of that asset, counted by full ID over all groups and entries of the packet.
   */
  lemma MakerReceivesExactly(tap: TapLib, lib: PacketLib, o: Offer, w: World, s: Settlement, order: seq<AssetName>)
    requires |o.makerPkScript| >= 2 && o.introspectorPubkey.Some?
    requires Canonical(lib) && Settles(tap, lib, o, w, s, order) && o.wantAsset.Some? && s.packet.Some?
    ensures Received(s.packet.value, o.wantAsset.value, 0) == o.wantAmount
  {
    var es := Entries(s.inputs);
    WantedGroupFirst(lib, o, es, order);
    GroupIdsKnown(lib, o, es, order);
    WantedFirst(lib, o, es, order);
    ReceivedOnce(s.packet.value, o.wantAsset.value, 0);
  }

  lemma GroupIdsKnown(lib: PacketLib, o: Offer, es: seq<Entry>, order: seq<AssetName>)
    requires Routable(lib, o, es) && IsOrder(lib, o, es, order)
    ensures forall i | 0 <= i < |order| :: order[i] in Ids(es) && GroupId(lib, o, order[i]).Some?
  {
    forall i | 0 <= i < |order| ensures order[i] in Ids(es) {
      assert order[i] in order;
    }
  }

  /**
   * The settlement conserves every sat iff what is left for the taker fits an int64, and then leaves
   * the taker at least the swap VTXO's sats; the maker's output is negative iff a BTC want of 2^63 or
   * more was cast, and otherwise carries exactly the want or the dust carrier.
   */
  lemma SettlementConservesSats(tap: TapLib, lib: PacketLib, o: Offer, w: World, s: Settlement, order: seq<AssetName>)
    requires |o.makerPkScript| >= 2 && o.introspectorPubkey.Some?
    requires Settles(tap, lib, o, w, s, order)
    ensures s.outputs[0].value + s.outputs[1].value == Sats(s.inputs) <==> Sats(s.inputs) - MakerSats(o) < TWO63
    ensures Sats(s.inputs) - MakerSats(o) < TWO63 ==> s.outputs[1].value >= s.inputs[0].amount
    ensures s.outputs[0].value < 0 <==> o.wantAsset == None && o.wantAmount >= TWO63
    ensures s.outputs[0].value >= 0 ==> s.outputs[0].value == if o.wantAsset.Some? then 330 else o.wantAmount
    ensures |s.outputs| == 3 && s.outputs[0].pkScript == o.makerPkScript && s.outputs[1].pkScript == w.takerPkScript
  {
    var swap, taker := w.swapVtxos[0], Pick(w.addresses, w.spendable);
    SatsOfInputs(swap, taker);
    OutputsConserveSats(o, swap, taker, w.takerPkScript, s.outputs);
  }

  lemma OutputsConserveSats(o: Offer, swap: Vtxo, taker: seq<TakerVtxo>, takerPkScript: bytes, outputs: seq<TxOut>)
    requires SettlesBtc(o, swap, taker, takerPkScript, outputs)
    ensures var all := swap.amount + Sats(Vtxos(taker));
            && (outputs[0].value + outputs[1].value == all <==> all - MakerSats(o) < TWO63)
            && (all - MakerSats(o) < TWO63 ==> outputs[1].value >= swap.amount)
    ensures outputs[0].value < 0 <==> o.wantAsset == None && o.wantAmount >= TWO63
    ensures outputs[0].value >= 0 ==> outputs[0].value == if o.wantAsset.Some? then 330 else o.wantAmount
  {
    SatsNonNegative(Vtxos(taker));
    TrueTotalConserved(o, Sats(Vtxos(taker)), swap.amount);
    BtcConserved(o, Sats(Vtxos(taker)) % TWO64, swap.amount);
  }

  lemma SatsNonNegative(vs: seq<Vtxo>)
    ensures Sats(vs) >= 0
  {
    SumNonNegative(Amounts(vs));
  }

  lemma SatsOfInputs(swap: Vtxo, taker: seq<TakerVtxo>)
    ensures Sats(TxInputs(swap, taker)) == swap.amount + Sats(Vtxos(taker))
  {
    var vs := Vtxos(taker);
    SumConcat([swap.amount as int], Amounts(vs));
    assert Amounts(TxInputs(swap, taker)) == [swap.amount as int] + Amounts(vs);
    assert [swap.amount as int][..0] == [];
  }

  /** What a packet does with one asset: where its units come from, where they go, and when they add up. */
  ghost predicate RoutesAsset(lib: PacketLib, o: Offer, ins: seq<Vtxo>, g: AssetGroup, id: AssetName)
  {
    var total := Sum(InputAmounts(InputsOf(Entries(ins), id)));
    var want := if o.wantAsset.Some? && id == lib.printId(o.wantAsset.value) then o.wantAmount else 0;
    && Sum(InputAmounts(g.inputs)) == total
    && Reaching(g.outputs, 0) == want
    && Reaching(g.outputs, 1) == (if total % TWO64 > want then total % TWO64 - want else 0)
    && (Sum(OutputAmounts(g.outputs)) == Sum(InputAmounts(g.inputs)) <==> want <= total < TWO64)
    && (AssetsInRange(ins) ==> forall k | 0 <= k < |ins| :: TakenFrom(g.inputs, k) == Held(ins[k].assets, id))
  }

  /**
   * Asset units over the whole settlement. The groups are those of the input assets, one each. Group
   * i pays the maker the wanted amount of the wanted asset and nothing of any other, and returns the
   * rest of the uint64 total to the taker; it hands out what it takes exactly when the inputs cover
   * the want and fit a uint64; and it takes from each input exactly what that input holds.
   */
  lemma SettlementConservesAssets(tap: TapLib, lib: PacketLib, o: Offer, w: World, s: Settlement,
                                  order: seq<AssetName>, i: nat)
    requires |o.makerPkScript| >= 2 && o.introspectorPubkey.Some?
    requires Canonical(lib) && Settles(tap, lib, o, w, s, order) && s.packet.Some? && i < |s.packet.value|
    ensures (set g | g in s.packet.value :: lib.printId(g.assetId)) == Ids(Entries(s.inputs))
    ensures forall j | 0 <= j < |s.packet.value| && j != i ::
              lib.printId(s.packet.value[j].assetId) != lib.printId(s.packet.value[i].assetId)
    ensures RoutesAsset(lib, o, s.inputs, s.packet.value[i], lib.printId(s.packet.value[i].assetId))
  {
    var es := Entries(s.inputs);
    GroupNames(lib, o, es, order);
    GroupRoutes(lib, o, s.inputs, order[i]);
  }

  /** The group of the k-th listed asset has that asset's ID, so the groups' IDs are those of the input assets. */
  lemma GroupNames(lib: PacketLib, o: Offer, es: seq<Entry>, order: seq<AssetName>)
    requires Canonical(lib) && Routable(lib, o, es) && IsOrder(lib, o, es, order)
    ensures var gs := GroupsOf(lib, o, es, order);
            && (forall k | 0 <= k < |order| :: lib.printId(gs[k].assetId) == order[k])
            && (set g | g in gs :: lib.printId(g.assetId)) == Ids(es)
  {
    GroupIdsKnown(lib, o, es, order);
    var gs := GroupsOf(lib, o, es, order);
    forall id | id in Ids(es) ensures id in set g | g in gs :: lib.printId(g.assetId) {
      assert id in order;
      var k :| 0 <= k < |order| && order[k] == id;
      assert gs[k] in gs && lib.printId(gs[k].assetId) == id;
    }
  }

  lemma GroupRoutes(lib: PacketLib, o: Offer, ins: seq<Vtxo>, id: AssetName)
    ensures RoutesAsset(lib, o, ins, GroupOf(lib, o, Entries(ins), id), id)
  {
    AssetConserved(lib, o, Entries(ins), id);
    if AssetsInRange(ins) {
      AlignedGroup(ins, id);
    }
  }

  lemma AlignedGroup(ins: seq<Vtxo>, id: AssetName)
    requires AssetsInRange(ins)
    ensures forall k | 0 <= k < |ins| :: TakenFrom(InputsOf(Entries(ins), id), k) == Held(ins[k].assets, id)
  {
    AlignedIff(ins);
  }

  /**
   * The swap end to end. A maker creates an offer with a taproot script and a want below 2^63; any
   * taker that finds the packet first of its type and gets through FulfillOffer holds a transaction
   * that pays the maker's own script exactly the sats, or the units of the very asset, asked for:
   * always for BTC and, for an asset, exactly when an asset packet was produced.
   */
  lemma SwapEndToEnd(c: Codecs, tap: TapLib, lib: PacketLib, p: OfferParams, makerPkScript: bytes, introspector: PubKey,
                     swap: bytes, data: bytes, ext: seq<Contract.Packet>, found: Offer, w: World, s: Settlement,
                     order: seq<AssetName>, hash: bytes -> bytes)
    requires AddressesAgree(tap) && Canonical(lib)
    requires TaprootShaped(makerPkScript) && p.wantAmount < TWO63 && p.cancelAt == 0 && p.exitDelay == None
    requires |introspector.x| == 32 && c.onCurve(introspector.x)
    requires p.wantAsset.Some? ==> GoodAsset(c, p.wantAsset.value)
    requires var o := Intended(p, makerPkScript, introspector);
             && AddressScript(tap, o, w.server) == Some(swap) && |swap| < TWO16
             && Print(c, o.(swapPkScript := swap)) == Ok(data)
    requires PacketByType(ext, PACKET_TYPE) == Some(Unknown(PACKET_TYPE, data))
    requires FindOffer(c, ext) == Ok(Some(found))
    requires |found.makerPkScript| >= 2 && found.introspectorPubkey.Some? && Settles(tap, lib, found, w, s, order)
    ensures s.outputs != [] && s.outputs[0].pkScript == makerPkScript
    ensures p.wantAsset == None ==> s.outputs[0].value == p.wantAmount
    ensures p.wantAsset.Some? && s.packet.Some? ==>
              && s.packet.value != [] && s.packet.value[0].assetId == p.wantAsset.value
              && Received(s.packet.value, p.wantAsset.value, 0) == p.wantAmount
    ensures Pays(found, View(s)) <==> (p.wantAsset.Some? ==> s.packet.Some?)
    ensures Accepts(s.entry.script, View(s), hash) <==> (p.wantAsset.Some? ==> s.packet.Some?)
  {
    MakerTakerAgree(c, tap, p, makerPkScript, introspector, w.server, swap, data, ext);
    SettlementPaysMaker(tap, lib, found, w, s, order);
    SettlementMeetsCovenant(tap, lib, found, w, s, order, hash);
    TaprootMaker(found);
    SettlementConservesSats(tap, lib, found, w, s, order);
    if found.wantAsset.Some? && s.packet.Some? {
      WantedGroupFirst(lib, found, Entries(s.inputs), order);
      MakerReceivesExactly(tap, lib, found, w, s, order);
    }
  }
}

/** VtxoScript, ToPacket and FindBancoOffer (pkg/contract/offer.go), CreateOffer (pkg/contract/maker.go). */
module Contract {
  import opened Base
  import opened Offers
  import opened OfferCodec
  import opened OfferPrinter
  import opened ScriptNumbers
  import opened Script
  import opened Covenant

  const PACKET_TYPE: byte := 0x03

  /** A tapscript leaf; keys enter a leaf by their x coordinate (BIP 340, "Specification"). */
  datatype Closure =
    | Multisig(keys: seq<Option<bytes>>)
    | CltvMultisig(keys: seq<Option<bytes>>, at: int)
    | CsvMultisig(keys: seq<Option<bytes>>, delay: RelativeLocktime)

  /** Key tweaking, taptree hashing and output scripts; foreign, and functions of what they are given. */
  datatype TapLib = TapLib(
    tweak: (bytes, seq<Op>) -> bytes,           // x-only introspector key tweaked by the script hash
    locktime: u64 -> int,                       // arklib.AbsoluteLocktime
    tapKey: seq<Closure> -> Option<bytes>,      // TapscriptsVtxoScript.TapTree
    p2tr: bytes -> Option<bytes>,               // script.P2TRScript, the taker's way to the output script
    addressScript: bytes -> Option<bytes>)      // Address.EncodeV0 and GetPkScript, the maker's way

  /** The assumption on addresses: an address that encodes has the P2TR script of its tap key. */
  ghost predicate AddressesAgree(tap: TapLib)
  {
    forall key :: tap.addressScript(key).Some? ==> tap.addressScript(key) == tap.p2tr(key)
  }

  function KeyX(k: Option<PubKey>): Option<bytes>
  {
    if k.Some? then Some(k.value.x) else None
  }

  /** The fulfil leaf, then the cancel and exit leaves that are set. */
  function Closures(tap: TapLib, o: Offer, server: PubKey): seq<Closure>
    requires |o.makerPkScript| >= 2 && o.introspectorPubkey.Some?
  {
    [Multisig([Some(server.x), Some(tap.tweak(o.introspectorPubkey.value.x, Compile(o)))])]
    + (if o.cancelAt > 0 then [CltvMultisig([KeyX(o.makerPublicKey), Some(server.x)], tap.locktime(o.cancelAt))] else [])
    + (if o.exitDelay.Some? then [CsvMultisig([KeyX(o.makerPublicKey), Some(server.x)], o.exitDelay.value)] else [])
  }

  /** A script accepts exactly the transactions whose output 0 is the maker's and carries int64(WantAmount). */
  ghost predicate Enforces(script: seq<Op>, o: Offer)
    requires |o.makerPkScript| >= 2
  {
    forall tx, hash :: Accepts(script, tx, hash) <==> ToMaker(o, tx) && Carries(o, tx, Threshold(o))
  }

  /** A two-key leaf's keys: the maker's x coordinate, missing when the offer names no maker, then the server's. */
  predicate MakerAndServer(keys: seq<Option<bytes>>, o: Offer, server: PubKey)
  {
    && |keys| == 2 && keys[1] == Some(server.x)
    && keys[0] == if o.makerPublicKey == None then None else Some(o.makerPublicKey.value.x)
  }

  /**
   * The leaves of an offer's contract: the fulfil leaf for the server and the introspector key tweaked
   * by a script that enforces the offer; then, if set, a cancel leaf locked until the cancel time and an
   * exit leaf locked for the exit delay, both for the maker and the server.
   */
  ghost predicate IsContract(tap: TapLib, o: Offer, server: PubKey, leaves: seq<Closure>, script: seq<Op>)
    requires |o.makerPkScript| >= 2 && o.introspectorPubkey.Some?
  {
    && Enforces(script, o)
    && |leaves| == 1 + (if o.cancelAt > 0 then 1 else 0) + (if o.exitDelay.Some? then 1 else 0)
    && leaves[0] == Multisig([Some(server.x), Some(tap.tweak(o.introspectorPubkey.value.x, script))])
    && (o.cancelAt > 0 ==>
          leaves[1].CltvMultisig? && MakerAndServer(leaves[1].keys, o, server) && leaves[1].at == tap.locktime(o.cancelAt))
    && (o.exitDelay.Some? ==>
          var exit := leaves[|leaves| - 1];
          exit.CsvMultisig? && MakerAndServer(exit.keys, o, server) && exit.delay == o.exitDelay.value)
  }

  lemma CompileEnforces(o: Offer)
    requires |o.makerPkScript| >= 2
    ensures Enforces(Compile(o), o)
  {
    forall tx, hash ensures Accepts(Compile(o), tx, hash) <==> ToMaker(o, tx) && Carries(o, tx, Threshold(o)) {
      CovenantMeaning(o, tx, hash);
    }
  }

  /** The leaves of an offer are its contract; the fulfil leaf is keyed by the compiled covenant. */
  lemma ClosuresAreContract(tap: TapLib, o: Offer, server: PubKey)
    requires |o.makerPkScript| >= 2 && o.introspectorPubkey.Some?
    ensures IsContract(tap, o, server, Closures(tap, o, server), Compile(o))
  {
    CompileEnforces(o);
  }

  /** VtxoScript: `script` is the fulfil script whose hash tweaks the introspector key. */
  method VtxoScript(tap: TapLib, o: Offer, server: PubKey) returns (closures: seq<Closure>, ghost script: seq<Op>)
    requires |o.makerPkScript| >= 2 && o.introspectorPubkey.Some?
    ensures closures == Closures(tap, o, server)
    ensures IsContract(tap, o, server, closures, script)
  {
    ClosuresAreContract(tap, o, server);
    var fulfillScript := FulfillScript(o);
    script := fulfillScript;
    var tweakedKey := tap.tweak(o.introspectorPubkey.value.x, fulfillScript);
    closures := [Multisig([Some(server.x), Some(tweakedKey)])];
    if o.cancelAt > 0 {
      closures := closures + [CltvMultisig([KeyX(o.makerPublicKey), Some(server.x)], tap.locktime(o.cancelAt))];
    }
    if o.exitDelay.Some? {
      closures := closures + [CsvMultisig([KeyX(o.makerPublicKey), Some(server.x)], o.exitDelay.value)];
    }
  }

  /** A leaf with all its keys. */
  predicate Keyed(leaf: Closure)
  {
    forall k | 0 <= k < |leaf.keys| :: leaf.keys[k].Some?
  }

  /** Every leaf has all its keys iff an offer with a cancel or exit path names the maker's key. */
  lemma LeavesKeyedIff(tap: TapLib, o: Offer, server: PubKey)
    requires |o.makerPkScript| >= 2 && o.introspectorPubkey.Some?
    ensures (forall leaf | leaf in Closures(tap, o, server) :: Keyed(leaf))
            <==> (o.cancelAt > 0 || o.exitDelay.Some? ==> o.makerPublicKey.Some?)
  {
    var leaves := Closures(tap, o, server);
    if o.makerPublicKey == None && (o.cancelAt > 0 || o.exitDelay.Some?) {
      assert leaves[1].keys[0] == None;
      assert !Keyed(leaves[1]);
    }
  }

  /** The swap output script under a tap key's way to a script; none when the tree cannot be built. */
  function ScriptBy(tap: TapLib, toScript: bytes -> Option<bytes>, leaves: seq<Closure>): Option<bytes>
  {
    var key := tap.tapKey(leaves);
    if key == None then None else toScript(key.value)
  }

  /** The swap output script the taker rebuilds from an offer under a server key. */
  function SwapScript(tap: TapLib, o: Offer, server: PubKey): Option<bytes>
    requires |o.makerPkScript| >= 2 && o.introspectorPubkey.Some?
  {
    ScriptBy(tap, tap.p2tr, Closures(tap, o, server))
  }

  /** The script of the swap address the maker computes. */
  function AddressScript(tap: TapLib, o: Offer, server: PubKey): Option<bytes>
    requires |o.makerPkScript| >= 2 && o.introspectorPubkey.Some?
  {
    ScriptBy(tap, tap.addressScript, Closures(tap, o, server))
  }

  /** The taker's check: the reconstructed contract is the one the offer names. */
  predicate Consistent(tap: TapLib, o: Offer, server: PubKey)
    requires |o.makerPkScript| >= 2 && o.introspectorPubkey.Some?
  {
    SwapScript(tap, o, server) == Some(o.swapPkScript)
  }

  /** The taker's check passes exactly when the offer's swap script is the P2TR script of its contract's tree. */
  lemma ConsistentIff(tap: TapLib, o: Offer, server: PubKey)
    requires |o.makerPkScript| >= 2 && o.introspectorPubkey.Some?
    ensures Consistent(tap, o, server)
            <==> exists leaves :: IsContract(tap, o, server, leaves, Compile(o)) && tap.tapKey(leaves).Some?
                                  && tap.p2tr(tap.tapKey(leaves).value) == Some(o.swapPkScript)
  {
    ClosuresAreContract(tap, o, server);
    forall leaves | IsContract(tap, o, server, leaves, Compile(o)) ensures leaves == Closures(tap, o, server) {
      ContractUnique(tap, o, server, leaves, Closures(tap, o, server), Compile(o));
    }
  }

  /** An offer, a server key and a script determine the contract. */
  lemma ContractUnique(tap: TapLib, o: Offer, server: PubKey, a: seq<Closure>, b: seq<Closure>, script: seq<Op>)
    requires |o.makerPkScript| >= 2 && o.introspectorPubkey.Some?
    requires IsContract(tap, o, server, a, script) && IsContract(tap, o, server, b, script)
    ensures a == b
  {
    assert forall k, m: seq<Option<bytes>> :: MakerAndServer(k, o, server) && MakerAndServer(m, o, server) ==> k == m;
  }

  // ---------------------------------------------------------------------------
  // What the swap script commits to.

  /** Key tweaking, taptree and output script as ideal hashes: none of them collides. */
  ghost predicate Binding(tap: TapLib)
  {
    && (forall j, k, a, b :: tap.tweak(j, a) == tap.tweak(k, b) ==> j == k && a == b)
    && (forall a, b :: tap.tapKey(a).Some? && tap.tapKey(a) == tap.tapKey(b) ==> a == b)
    && (forall a, b :: tap.p2tr(a).Some? && tap.p2tr(a) == tap.p2tr(b) ==> a == b)
  }

  /** The same covenant: the same want, an asset by its issuing transaction, and the same maker program. */
  predicate SameCovenant(a: Offer, b: Offer)
    requires |a.makerPkScript| >= 2 && |b.makerPkScript| >= 2
  {
    && a.wantAmount == b.wantAmount
    && (a.wantAsset.Some? <==> b.wantAsset.Some?)
    && (a.wantAsset.Some? ==> a.wantAsset.value.txid == b.wantAsset.value.txid)
    && a.makerPkScript[2..] == b.makerPkScript[2..]
  }

  /** Where the compiled script keeps the threshold, the maker's program and the asset. */
  lemma CompiledTerms(o: Offer)
    requires |o.makerPkScript| >= 2
    ensures var s, n := Compile(o), if o.wantAsset == None then 11 else 14;
            && |s| == n
            && s[n - 9] == Push(NumBytes(Threshold(o)))
            && s[n - 2] == Push(o.makerPkScript[2..])
            && (o.wantAsset.Some? ==> s[1] == Push(o.wantAsset.value.txid))
  {
  }

  /** int64 conversion keeps uint64 values apart. */
  lemma ThresholdInjective(a: Offer, b: Offer)
    requires Threshold(a) == Threshold(b)
    ensures a.wantAmount == b.wantAmount
  {
  }

  /** The compiled script determines the covenant: no two wants or maker programs share one. */
  lemma CompileInjective(a: Offer, b: Offer)
    requires |a.makerPkScript| >= 2 && |b.makerPkScript| >= 2
    ensures Compile(a) == Compile(b) <==> SameCovenant(a, b)
  {
    if Compile(a) == Compile(b) {
      CompiledTerms(a);
      CompiledTerms(b);
      NumRoundTrip(Threshold(a));
      NumRoundTrip(Threshold(b));
      ThresholdInjective(a, b);
    }
  }

  /** Two fulfil leaves agree iff server, introspector and covenant do. */
  lemma FulfilLeafCommits(tap: TapLib, a: Offer, b: Offer, serverA: PubKey, serverB: PubKey)
    requires Binding(tap)
    requires |a.makerPkScript| >= 2 && a.introspectorPubkey.Some? && |b.makerPkScript| >= 2 && b.introspectorPubkey.Some?
    ensures Closures(tap, a, serverA)[0] == Closures(tap, b, serverB)[0]
            <==> serverA.x == serverB.x && a.introspectorPubkey.value.x == b.introspectorPubkey.value.x && SameCovenant(a, b)
  {
    CompileInjective(a, b);
    var la, lb := Closures(tap, a, serverA)[0], Closures(tap, b, serverB)[0];
    if la == lb {
      assert la.keys[0] == lb.keys[0] && la.keys[1] == lb.keys[1];
    }
  }

  /** The same contract: covenant, introspector, and the cancel and exit paths with their locks and maker key. */
  predicate SameTerms(tap: TapLib, a: Offer, b: Offer)
    requires |a.makerPkScript| >= 2 && a.introspectorPubkey.Some? && |b.makerPkScript| >= 2 && b.introspectorPubkey.Some?
  {
    && SameCovenant(a, b)
    && a.introspectorPubkey.value.x == b.introspectorPubkey.value.x
    && (a.cancelAt > 0 <==> b.cancelAt > 0) && (a.cancelAt > 0 ==> tap.locktime(a.cancelAt) == tap.locktime(b.cancelAt))
    && a.exitDelay == b.exitDelay
    && (a.cancelAt > 0 || a.exitDelay.Some? ==> KeyX(a.makerPublicKey) == KeyX(b.makerPublicKey))
  }

  /** Two offers have the same leaves under one server exactly when their terms agree. */
  lemma ClosuresCommit(tap: TapLib, a: Offer, b: Offer, server: PubKey)
    requires Binding(tap)
    requires |a.makerPkScript| >= 2 && a.introspectorPubkey.Some? && |b.makerPkScript| >= 2 && b.introspectorPubkey.Some?
    ensures Closures(tap, a, server) == Closures(tap, b, server) <==> SameTerms(tap, a, b)
  {
    FulfilLeafCommits(tap, a, b, server, server);
    CompileInjective(a, b);
    var la, lb := Closures(tap, a, server), Closures(tap, b, server);
    ClosuresAreContract(tap, a, server);
    ClosuresAreContract(tap, b, server);
    if la == lb {
      assert la[0] == lb[0] && la[|la| - 1] == lb[|lb| - 1];
      if |la| > 1 {
        assert la[1] == lb[1] && la[1].keys[0] == lb[1].keys[0];
      }
    }
  }

  /**
   * The swap script binds the offer: a taker that finds an offer consistent with a swap script finds
   * another offer naming the same script consistent exactly when the terms agree, so no term can be
   * altered on the way without failing the check.
   */
  lemma TamperedOfferFails(tap: TapLib, a: Offer, b: Offer, server: PubKey)
    requires Binding(tap)
    requires |a.makerPkScript| >= 2 && a.introspectorPubkey.Some? && |b.makerPkScript| >= 2 && b.introspectorPubkey.Some?
    requires Consistent(tap, a, server) && b.swapPkScript == a.swapPkScript
    ensures Consistent(tap, b, server) <==> SameTerms(tap, a, b)
  {
    ClosuresCommit(tap, a, b, server);
  }

  // ---------------------------------------------------------------------------
  // Extension packets.

  datatype Packet = Unknown(kind: byte, data: bytes) | Known(kind: byte)

  datatype FindError = UnexpectedPacket | Malformed(error: CodecError)

  /** Extension.GetPacketByType: the first packet of the type. */
  function PacketByType(ext: seq<Packet>, kind: byte): Option<Packet>
  {
    if ext == [] then None
    else if ext[0].kind == kind then Some(ext[0])
    else PacketByType(ext[1..], kind)
  }

  /** What a transaction's extension says about a swap: nothing, an offer, or something broken. */
  function FindOffer(c: Codecs, ext: seq<Packet>): Result<Option<Offer>, FindError>
  {
    var p := PacketByType(ext, PACKET_TYPE);
    if p == None then Ok(None)
    else if p.value.Known? then Err(UnexpectedPacket)
    else
      var d := Decode(c, p.value.data);
      if d.Ok? then Ok(Some(d.value)) else Err(Malformed(d.error))
  }

  method FindBancoOffer(c: Codecs, ext: seq<Packet>) returns (r: Result<Option<Offer>, FindError>)
    ensures r == FindOffer(c, ext)
  {
    var p := PacketByType(ext, PACKET_TYPE);
    if p == None {
      return Ok(None);
    }
    match p.value {
      case Known(_) => return Err(UnexpectedPacket);
      case Unknown(_, data) =>
        var d := DeserializeOffer(c, data);
        if d.Err? {
          return Err(Malformed(d.error));
        }
        r := Ok(Some(d.value));
    }
  }

  /**
   * What is found, in packets: without a packet of type 3 nothing; otherwise the first one decides, and
   * is an unexpected kind, an offer, or a parse error.
   */
  lemma FoundInPackets(c: Codecs, ext: seq<Packet>)
    ensures FindOffer(c, ext) == Ok(None) <==> forall i | 0 <= i < |ext| :: ext[i].kind != 3
    ensures forall i | 0 <= i < |ext| && ext[i].kind == 3 && (forall j | 0 <= j < i :: ext[j].kind != 3) ::
              FindOffer(c, ext)
              == match ext[i]
                 case Known(_) => Err(UnexpectedPacket)
                 case Unknown(_, data) =>
                   match Decode(c, data)
                   case Err(e) => Err(Malformed(e))
                   case Ok(o) => Ok(Some(o))
  {
    var i := FirstOfType(ext, 3);
    if i < |ext| {
      assert forall j | 0 <= j < |ext| && ext[j].kind == 3 && (forall h | 0 <= h < j :: ext[h].kind != 3) :: j == i;
    }
  }

  /** The position of the packet that PacketByType returns, or the length when it returns none. */
  lemma {:induction false} FirstOfType(ext: seq<Packet>, kind: byte) returns (i: nat)
    ensures i <= |ext| && forall j | 0 <= j < i :: ext[j].kind != kind
    ensures i < |ext| ==> ext[i].kind == kind
    ensures PacketByType(ext, kind) == if i < |ext| then Some(ext[i]) else None
  {
    if ext == [] || ext[0].kind == kind {
      i := 0;
    } else {
      var k := FirstOfType(ext[1..], kind);
      i := k + 1;
    }
  }

  /** An offer the taker gets from an extension is well formed, so it has a fulfil script and a fulfil leaf. */
  lemma FoundOfferWellFormed(c: Codecs, ext: seq<Packet>)
    requires Lawful(c) && FindOffer(c, ext).Ok? && FindOffer(c, ext).value.Some?
    ensures WellFormed(c, FindOffer(c, ext).value.value)
  {
    AcceptedWellFormed(c, PacketByType(ext, PACKET_TYPE).value.data);
  }

  /**
   * The parser does not ask for the maker's key: dropping it from any well-formed offer and setting
   * a cancel time gives an offer that is found in an extension and whose cancel leaf has no maker key.
   */
  lemma KeylessCancelFound(c: Codecs, tap: TapLib, o: Offer, server: PubKey)
    requires WellFormed(c, o)
    ensures var k := o.(cancelAt := 1, makerPublicKey := None);
            && Print(c, k).Ok?
            && FindOffer(c, [Unknown(PACKET_TYPE, Print(c, k).value)]) == Ok(Some(k))
            && Closures(tap, k, server)[1].keys[0] == None
  {
    PrintThenDecode(c, o.(cancelAt := 1, makerPublicKey := None));
  }

  // ---------------------------------------------------------------------------
  // The maker.

  datatype OfferParams = OfferParams(wantAmount: u64, wantAsset: Option<AssetId>, cancelAt: u64, exitDelay: Option<RelativeLocktime>)
  datatype CreateError = CancelUnsupported | ExitUnsupported | NoTaptree | NoAddress | Unprintable(error: CodecError)
  datatype Created = Created(bytes: bytes, packet: Packet)

  /** The offer the maker means, before its swap script is known. */
  function Intended(p: OfferParams, makerPkScript: bytes, introspector: PubKey): Offer
  {
    Offer([], p.wantAmount, p.wantAsset, None, 0, 0, p.cancelAt, makerPkScript, None, Some(introspector), None)
  }

  /** CreateOffer: fill in the swap script, print, and wrap. */
  method CreateOffer(c: Codecs, tap: TapLib, p: OfferParams, makerPkScript: bytes, introspector: PubKey, server: PubKey)
    returns (r: Result<Created, CreateError>)
    requires |makerPkScript| >= 2
    ensures var o := Intended(p, makerPkScript, introspector);
            var swap := AddressScript(tap, o, server);
            && (p.cancelAt > 0 ==> r == Err(CancelUnsupported))
            && (p.cancelAt == 0 && p.exitDelay.Some? ==> r == Err(ExitUnsupported))
            && (r in {Err(NoTaptree), Err(NoAddress)} <==> p.cancelAt == 0 && p.exitDelay == None && swap == None)
            && (r.Ok? <==> p.cancelAt == 0 && p.exitDelay == None && swap.Some?
                           && Print(c, o.(swapPkScript := swap.value)).Ok?)
            && (r.Ok? ==> Print(c, o.(swapPkScript := swap.value)) == Ok(r.value.bytes)
                          && r.value.packet == Unknown(PACKET_TYPE, r.value.bytes))
            && (swap.Some? ==> exists leaves :: IsContract(tap, o, server, leaves, Compile(o)) && tap.tapKey(leaves).Some?
                                                && tap.addressScript(tap.tapKey(leaves).value) == swap)
  {
    ClosuresAreContract(tap, Intended(p, makerPkScript, introspector), server);
    if p.cancelAt > 0 {
      return Err(CancelUnsupported);
    }
    if p.exitDelay.Some? {
      return Err(ExitUnsupported);
    }
    var offer := Intended(p, makerPkScript, introspector);
    var closures, _ := VtxoScript(tap, offer, server);
    var taprootKey := tap.tapKey(closures);
    if taprootKey == None {
      return Err(NoTaptree);
    }
    var swap := tap.addressScript(taprootKey.value);
    if swap == None {
      return Err(NoAddress);
    }
    offer := offer.(swapPkScript := swap.value);
    var encoded := Serialize(c, offer);
    if encoded.Err? {
      return Err(Unprintable(encoded.error));
    }
    var data := encoded.value;
    r := Ok(Created(data, Unknown(PACKET_TYPE, data)));
  }

  /** The contract does not depend on key parity, nor on the swap script field. */
  lemma SwapScriptOfEvenKeys(tap: TapLib, o: Offer, server: PubKey, swap: bytes)
    requires |o.makerPkScript| >= 2 && o.introspectorPubkey.Some?
    ensures SwapScript(tap, EvenKeys(o).(swapPkScript := swap), server) == SwapScript(tap, o, server)
  {
    var e := EvenKeys(o).(swapPkScript := swap);
    assert Compile(e) == Compile(o);
  }

  /** Crossing the wire neither breaks nor repairs an offer's consistency with its swap script. */
  lemma WireKeepsConsistency(c: Codecs, tap: TapLib, o: Offer, server: PubKey)
    requires WellFormed(c, EvenKeys(o))
    ensures var d := Decode(c, Print(c, o).value);
            && Print(c, o).Ok? && d == Ok(EvenKeys(o))
            && (Consistent(tap, d.value, server) <==> Consistent(tap, o, server))
  {
    RoundTripLiftsKeys(c, o);
    SwapScriptOfEvenKeys(tap, o, server, o.swapPkScript);
  }

  /**
   * Maker and taker agree: whenever the maker's packet is the first of its type in an extension,
   * the taker finds the offer the maker meant, field by field: the swap script, the want, the maker's
   * script and the introspector key lifted to even y, and nothing else set. Its consistency check passes
   * under the same server key: both sides derive the same script from the same tap key because
   * addresses carry P2TR scripts.
   */
  lemma MakerTakerAgree(c: Codecs, tap: TapLib, p: OfferParams, makerPkScript: bytes, introspector: PubKey,
                        server: PubKey, swap: bytes, data: bytes, ext: seq<Packet>)
    requires AddressesAgree(tap)
    requires |makerPkScript| == 34 && p.cancelAt == 0 && p.exitDelay == None
    requires |introspector.x| == 32 && c.onCurve(introspector.x)
    requires p.wantAsset.Some? ==> GoodAsset(c, p.wantAsset.value)
    requires var o := Intended(p, makerPkScript, introspector);
             && AddressScript(tap, o, server) == Some(swap) && |swap| < TWO16
             && Print(c, o.(swapPkScript := swap)) == Ok(data)
    requires PacketByType(ext, PACKET_TYPE) == Some(Unknown(PACKET_TYPE, data))
    ensures FindOffer(c, ext).Ok? && FindOffer(c, ext).value.Some?
    ensures var found := FindOffer(c, ext).value.value;
            && found.swapPkScript == swap && found.makerPkScript == makerPkScript
            && found.wantAmount == p.wantAmount && found.wantAsset == p.wantAsset
            && found.introspectorPubkey == Some(PubKey(introspector.x, false))
            && found.offerAsset == None && found.ratioNum == 0 && found.ratioDen == 0
            && found.cancelAt == 0 && found.exitDelay == None && found.makerPublicKey == None
            && Consistent(tap, found, server)
  {
    var o := Intended(p, makerPkScript, introspector).(swapPkScript := swap);
    assert ParseKey(c, introspector.x) == Some(PubKey(introspector.x, false));
    WireKeepsConsistency(c, tap, o, server);
    SwapScriptOfEvenKeys(tap, Intended(p, makerPkScript, introspector), server, swap);
  }
}

/** VTXO selection and BTC change in FulfillOffer of pkg/contract/taker.go. */
module Wallet {
  import opened Base
  import opened Offers

  datatype Outpoint = Outpoint(txid: string, vout: u32)
  /** The text form of an asset ID. */
  datatype AssetName = AssetName(text: string)
  datatype AssetEntry = AssetEntry(assetId: AssetName, amount: u64)

  /** A wallet VTXO; `address` is what Vtxo.Address returns, None when it fails. */
  datatype Vtxo = Vtxo(outpoint: Outpoint, amount: u64, assets: seq<AssetEntry>, recoverable: bool, address: Option<string>)
  datatype WalletAddress = WalletAddress(address: string, tapscripts: seq<string>)
  datatype TakerVtxo = TakerVtxo(vtxo: Vtxo, tapscripts: seq<string>)

  // ---------------------------------------------------------------------------
  // Selection.

  predicate SpendableAt(v: Vtxo, a: WalletAddress)
  {
    !v.recoverable && v.address == Some(a.address)
  }

  /** The VTXOs one address picks, in list order. */
  function PickAt(a: WalletAddress, vs: seq<Vtxo>): seq<TakerVtxo>
  {
    if vs == [] then []
    else
      var v := vs[|vs| - 1];
      PickAt(a, vs[..|vs| - 1]) + if SpendableAt(v, a) then [TakerVtxo(v, a.tapscripts)] else []
  }

  function Pick(addrs: seq<WalletAddress>, vs: seq<Vtxo>): seq<TakerVtxo>
  {
    if addrs == [] then [] else Pick(addrs[..|addrs| - 1], vs) + PickAt(addrs[|addrs| - 1], vs)
  }

  /** VTXO p is not recoverable and sits at wallet address a. */
  predicate Eligible(addrs: seq<WalletAddress>, vs: seq<Vtxo>, a: nat, p: nat)
  {
    a < |addrs| && p < |vs| && !vs[p].recoverable && vs[p].address == Some(addrs[a].address)
  }

  /** Address positions count first, list positions second. */
  predicate Before(x: (nat, nat), y: (nat, nat)) { x.0 < y.0 || (x.0 == y.0 && x.1 < y.1) }

  /** The spots, (address, VTXO) positions, are the eligible ones, each once and in order. */
  ghost predicate AreSpots(addrs: seq<WalletAddress>, vs: seq<Vtxo>, spots: seq<(nat, nat)>)
  {
    && (forall k | 0 <= k < |spots| :: Eligible(addrs, vs, spots[k].0, spots[k].1))
    && (forall a: nat, p: nat | Eligible(addrs, vs, a, p) :: (a, p) in spots)
    && (forall j, k | 0 <= j < k < |spots| :: Before(spots[j], spots[k]))
  }

  /** A selection takes, at each spot, that VTXO with that address's tapscripts. */
  predicate TakenAt(addrs: seq<WalletAddress>, vs: seq<Vtxo>, taker: seq<TakerVtxo>, spots: seq<(nat, nat)>)
  {
    && |taker| == |spots|
    && forall k | 0 <= k < |spots| ::
         && spots[k].0 < |addrs| && spots[k].1 < |vs|
         && taker[k] == TakerVtxo(vs[spots[k].1], addrs[spots[k].0].tapscripts)
  }

  lemma {:induction false} PickAtSpots(addrs: seq<WalletAddress>, a: nat, vs: seq<Vtxo>, n: nat) returns (spots: seq<(nat, nat)>)
    requires a < |addrs| && n <= |vs|
    ensures TakenAt(addrs, vs, PickAt(addrs[a], vs[..n]), spots)
    ensures forall k | 0 <= k < |spots| :: spots[k].0 == a && spots[k].1 < n && Eligible(addrs, vs, a, spots[k].1)
    ensures forall p: nat | p < n && Eligible(addrs, vs, a, p) :: (a, p) in spots
    ensures forall j, k | 0 <= j < k < |spots| :: spots[j].1 < spots[k].1
  {
    spots := [];
    if n > 0 {
      var front := PickAtSpots(addrs, a, vs, n - 1);
      assert vs[..n][..n - 1] == vs[..n - 1];
      spots := front + if Eligible(addrs, vs, a, n - 1) then [(a, n - 1)] else [];
      forall p: nat | p < n && Eligible(addrs, vs, a, p) ensures (a, p) in spots {
        if p < n - 1 {
          assert (a, p) in front;
        }
      }
    }
  }

  lemma {:induction false} PickSpots(addrs: seq<WalletAddress>, vs: seq<Vtxo>, m: nat) returns (spots: seq<(nat, nat)>)
    requires m <= |addrs|
    ensures TakenAt(addrs, vs, Pick(addrs[..m], vs), spots)
    ensures forall k | 0 <= k < |spots| :: spots[k].0 < m && Eligible(addrs, vs, spots[k].0, spots[k].1)
    ensures forall a: nat, p: nat | a < m && Eligible(addrs, vs, a, p) :: (a, p) in spots
    ensures forall j, k | 0 <= j < k < |spots| :: Before(spots[j], spots[k])
  {
    spots := [];
    if m > 0 {
      var front := PickSpots(addrs, vs, m - 1);
      var last := PickAtSpots(addrs, m - 1, vs, |vs|);
      assert addrs[..m][..m - 1] == addrs[..m - 1] && vs[..|vs|] == vs;
      spots := front + last;
      TakenConcat(addrs, vs, Pick(addrs[..m - 1], vs), front, PickAt(addrs[m - 1], vs), last);
      InOrder(front, last, m - 1);
      forall a: nat, p: nat | a < m && Eligible(addrs, vs, a, p) ensures (a, p) in spots {
        assert (a, p) in front || (a, p) in last;
      }
      forall k | 0 <= k < |spots| ensures spots[k].0 < m && Eligible(addrs, vs, spots[k].0, spots[k].1) {
        assert spots[k] == if k < |front| then front[k] else last[k - |front|];
      }
    }
  }

  lemma TakenConcat(addrs: seq<WalletAddress>, vs: seq<Vtxo>, a: seq<TakerVtxo>, front: seq<(nat, nat)>,
                    b: seq<TakerVtxo>, last: seq<(nat, nat)>)
    requires TakenAt(addrs, vs, a, front) && TakenAt(addrs, vs, b, last)
    ensures TakenAt(addrs, vs, a + b, front + last)
  {
    forall k | 0 <= k < |front + last|
      ensures (front + last)[k].0 < |addrs| && (front + last)[k].1 < |vs|
      ensures (a + b)[k] == TakerVtxo(vs[(front + last)[k].1], addrs[(front + last)[k].0].tapscripts)
    {
      if k >= |front| {
        assert (front + last)[k] == last[k - |front|] && (a + b)[k] == b[k - |front|];
      }
    }
  }

  /** The spots of one more address follow those of the earlier ones. */
  lemma InOrder(front: seq<(nat, nat)>, last: seq<(nat, nat)>, a: nat)
    requires forall j, k | 0 <= j < k < |front| :: Before(front[j], front[k])
    requires forall k | 0 <= k < |front| :: front[k].0 < a
    requires forall k | 0 <= k < |last| :: last[k].0 == a
    requires forall j, k | 0 <= j < k < |last| :: last[j].1 < last[k].1
    ensures forall j, k | 0 <= j < k < |front + last| :: Before((front + last)[j], (front + last)[k])
  {
    var all := front + last;
    forall j, k | 0 <= j < k < |all| ensures Before(all[j], all[k]) {
      if j >= |front| {
        assert all[j] == last[j - |front|] && all[k] == last[k - |front|];
      } else if k >= |front| {
        assert all[j] == front[j] && all[k] == last[k - |front|];
      }
    }
  }

  /**
   * The nested selection loop: it takes exactly the VTXOs that are not recoverable and sit at a
   * wallet address, once per such address, by address and then by list position.
   */
  method SelectVtxos(addrs: seq<WalletAddress>, vs: seq<Vtxo>) returns (taker: seq<TakerVtxo>, ghost spots: seq<(nat, nat)>)
    ensures taker == Pick(addrs, vs)
    ensures AreSpots(addrs, vs, spots) && TakenAt(addrs, vs, taker, spots)
  {
    spots := PickSpots(addrs, vs, |addrs|);
    taker := [];
    assert addrs[..0] == [];
    for i := 0 to |addrs|
      invariant taker == Pick(addrs[..i], vs)
    {
      var addr := addrs[i];
      ghost var before := taker;
      assert vs[..0] == [];
      for j := 0 to |vs|
        invariant taker == before + PickAt(addr, vs[..j])
      {
        var v := vs[j];
        assert vs[..j + 1][..j] == vs[..j];
        if v.recoverable {
          continue;
        }
        if v.address == None {
          continue;
        }
        if v.address.value == addr.address {
          taker := taker + [TakerVtxo(v, addr.tapscripts)];
        }
      }
      assert vs[..|vs|] == vs;
      assert addrs[..i + 1][..i] == addrs[..i];
    }
    assert addrs[..|addrs|] == addrs;
  }

  function Vtxos(ts: seq<TakerVtxo>): (r: seq<Vtxo>)
    ensures |r| == |ts|
  {
    seq(|ts|, i requires 0 <= i < |ts| => ts[i].vtxo)
  }

  lemma VtxosConcat(a: seq<TakerVtxo>, b: seq<TakerVtxo>)
    ensures Vtxos(a + b) == Vtxos(a) + Vtxos(b)
  {
  }

  /** How often an element occurs. */
  function Count<T(==)>(s: seq<T>, x: T): nat { multiset(s)[x] }

  /** How many wallet addresses a VTXO belongs to. */
  function Owners(addrs: seq<WalletAddress>, v: Vtxo): nat
  {
    if addrs == [] then 0
    else Owners(addrs[..|addrs| - 1], v) + if SpendableAt(v, addrs[|addrs| - 1]) then 1 else 0
  }

  lemma {:induction false} CountPickAt(a: WalletAddress, vs: seq<Vtxo>, v: Vtxo)
    ensures Count(Vtxos(PickAt(a, vs)), v) == if SpendableAt(v, a) then Count(vs, v) else 0
  {
    if vs != [] {
      var front, w := vs[..|vs| - 1], vs[|vs| - 1];
      assert vs == front + [w];
      CountPickAt(a, front, v);
      if SpendableAt(w, a) {
        VtxosConcat(PickAt(a, front), [TakerVtxo(w, a.tapscripts)]);
        assert Vtxos([TakerVtxo(w, a.tapscripts)]) == [w];
      } else {
        assert PickAt(a, vs) == PickAt(a, front);
      }
    }
  }

  /** Every spendable VTXO is picked once per address that owns it; nothing else is picked. */
  lemma {:induction false} PickMultiplicity(addrs: seq<WalletAddress>, vs: seq<Vtxo>, v: Vtxo)
    ensures Count(Vtxos(Pick(addrs, vs)), v) == Owners(addrs, v) * Count(vs, v)
  {
    if addrs == [] {
      assert Vtxos([]) == [];
    } else {
      var front, a := addrs[..|addrs| - 1], addrs[|addrs| - 1];
      PickMultiplicity(front, vs, v);
      CountPickAt(a, vs, v);
      VtxosConcat(Pick(front, vs), PickAt(a, vs));
      MultiplySuccessor(Owners(front, v), Count(vs, v), SpendableAt(v, a));
    }
  }

  lemma MultiplySuccessor(n: nat, k: nat, more: bool)
    ensures (n + if more then 1 else 0) * k == n * k + if more then k else 0
  {
  }

  /** Every picked VTXO is spendable at an address of the wallet and carries that address's tapscripts. */
  lemma {:induction false} PickedAtOwnAddress(addrs: seq<WalletAddress>, vs: seq<Vtxo>, t: TakerVtxo)
    requires t in Pick(addrs, vs)
    ensures t.vtxo in vs && !t.vtxo.recoverable
    ensures exists i | 0 <= i < |addrs| :: t.vtxo.address == Some(addrs[i].address) && t.tapscripts == addrs[i].tapscripts
  {
    var front, a := addrs[..|addrs| - 1], addrs[|addrs| - 1];
    if t in Pick(front, vs) {
      PickedAtOwnAddress(front, vs, t);
      var i :| 0 <= i < |front| && t.vtxo.address == Some(front[i].address) && t.tapscripts == front[i].tapscripts;
      assert addrs[i] == front[i];
    } else {
      PickAtAddress(a, vs, t);
      assert t.vtxo.address == Some(addrs[|addrs| - 1].address);
    }
  }

  lemma {:induction false} PickAtAddress(a: WalletAddress, vs: seq<Vtxo>, t: TakerVtxo)
    requires t in PickAt(a, vs)
    ensures t.vtxo in vs && !t.vtxo.recoverable && t.vtxo.address == Some(a.address) && t.tapscripts == a.tapscripts
  {
    if t in PickAt(a, vs[..|vs| - 1]) {
      PickAtAddress(a, vs[..|vs| - 1], t);
    }
  }

  predicate DistinctAddresses(addrs: seq<WalletAddress>)
  {
    forall i, j | 0 <= i < j < |addrs| :: addrs[i].address != addrs[j].address
  }

  predicate DistinctOutpoints(vs: seq<Vtxo>)
  {
    forall i, j | 0 <= i < j < |vs| :: vs[i].outpoint != vs[j].outpoint
  }

  /** A non-recoverable VTXO at one of the wallet's addresses. */
  predicate WalletOwned(addrs: seq<WalletAddress>, v: Vtxo)
  {
    !v.recoverable && exists i | 0 <= i < |addrs| :: v.address == Some(addrs[i].address)
  }

  lemma {:induction false} OwnersDistinct(addrs: seq<WalletAddress>, v: Vtxo)
    requires DistinctAddresses(addrs)
    ensures Owners(addrs, v) == if WalletOwned(addrs, v) then 1 else 0
  {
    if addrs != [] {
      var front := addrs[..|addrs| - 1];
      OwnersDistinct(front, v);
      if WalletOwned(front, v) {
        var i :| 0 <= i < |front| && v.address == Some(front[i].address);
        assert v.address == Some(addrs[i].address);
      }
      if i :| 0 <= i < |addrs| && v.address == Some(addrs[i].address) {
        if i < |front| {
          assert v.address == Some(front[i].address);
        }
      }
    }
  }

  lemma {:induction false} DistinctCount(vs: seq<Vtxo>, v: Vtxo)
    requires DistinctOutpoints(vs)
    ensures Count(vs, v) == if v in vs then 1 else 0
  {
    if vs != [] {
      var front, w := vs[..|vs| - 1], vs[|vs| - 1];
      assert vs == front + [w];
      DistinctCount(front, v);
      if v in front {
        var i :| 0 <= i < |front| && front[i] == v;
        assert vs[i] == v;
      }
    }
  }

  /**
   * With distinct addresses and outpoints, a listed VTXO is picked exactly once if it is not
   * recoverable and sits at one of the wallet's addresses, and nothing else is picked.
   */
  lemma PickedExactlyOnce(addrs: seq<WalletAddress>, vs: seq<Vtxo>, v: Vtxo)
    requires DistinctAddresses(addrs) && DistinctOutpoints(vs)
    ensures Count(Vtxos(Pick(addrs, vs)), v)
            == if v in vs && !v.recoverable && (exists i | 0 <= i < |addrs| :: v.address == Some(addrs[i].address))
               then 1 else 0
  {
    PickMultiplicity(addrs, vs, v);
    OwnersDistinct(addrs, v);
    DistinctCount(vs, v);
  }

  lemma {:induction false} OwnersRemoveAt(addrs: seq<WalletAddress>, i: nat, v: Vtxo)
    requires i < |addrs|
    ensures Owners(RemoveAt(addrs, i), v) == Owners(addrs, v) - if SpendableAt(v, addrs[i]) then 1 else 0
    decreases |addrs|
  {
    var front := addrs[..|addrs| - 1];
    if i == |addrs| - 1 {
      assert RemoveAt(addrs, i) == front;
    } else {
      OwnersRemoveAt(front, i, v);
      assert RemoveAt(addrs, i)[..|addrs| - 2] == RemoveAt(front, i);
    }
  }

  lemma {:induction false} OwnersPermutation(a: seq<WalletAddress>, b: seq<WalletAddress>, v: Vtxo)
    requires multiset(a) == multiset(b)
    ensures Owners(a, v) == Owners(b, v)
    decreases |a|
  {
    if a == [] {
      assert |multiset(b)| == 0;
    } else {
      assert a[0] in multiset(b);
      var i :| 0 <= i < |b| && b[i] == a[0];
      RemoveAtMultiset(a, 0);
      RemoveAtMultiset(b, i);
      OwnersPermutation(RemoveAt(a, 0), RemoveAt(b, i), v);
      OwnersRemoveAt(a, 0, v);
      OwnersRemoveAt(b, i, v);
    }
  }

  function Amounts(vs: seq<Vtxo>): (r: seq<int>)
    ensures |r| == |vs|
    ensures forall i | 0 <= i < |vs| :: r[i] == vs[i].amount
  {
    seq(|vs|, i requires 0 <= i < |vs| => vs[i].amount as int)
  }

  /** The sats of a list of VTXOs. */
  function Sats(vs: seq<Vtxo>): int { Sum(Amounts(vs)) }

  lemma SatsSnoc(vs: seq<Vtxo>, v: Vtxo)
    ensures Sats(vs + [v]) == Sats(vs) + v.amount
  {
    assert Amounts(vs + [v])[..|vs|] == Amounts(vs);
  }

  lemma SatsRemoveAt(vs: seq<Vtxo>, i: nat)
    requires i < |vs|
    ensures Sats(RemoveAt(vs, i)) == Sats(vs) - vs[i].amount
  {
    SumRemoveAt(Amounts(vs), i);
    assert Amounts(RemoveAt(vs, i)) == RemoveAt(Amounts(vs), i);
  }

  lemma {:induction false} SatsPermutation(a: seq<Vtxo>, b: seq<Vtxo>)
    requires multiset(a) == multiset(b)
    ensures Sats(a) == Sats(b)
    decreases |a|
  {
    if a == [] {
      assert |multiset(b)| == 0;
    } else {
      assert a[0] in multiset(b);
      var i :| 0 <= i < |b| && b[i] == a[0];
      RemoveAtMultiset(a, 0);
      RemoveAtMultiset(b, i);
      SatsPermutation(RemoveAt(a, 0), RemoveAt(b, i));
      SatsRemoveAt(a, 0);
      SatsRemoveAt(b, i);
    }
  }

  /** Listing the wallet addresses in another order picks the same VTXOs and the same sats. */
  lemma PickOrderIrrelevant(a: seq<WalletAddress>, b: seq<WalletAddress>, vs: seq<Vtxo>)
    requires multiset(a) == multiset(b)
    ensures multiset(Vtxos(Pick(a, vs))) == multiset(Vtxos(Pick(b, vs)))
    ensures Sats(Vtxos(Pick(a, vs))) == Sats(Vtxos(Pick(b, vs)))
  {
    forall v: Vtxo ensures multiset(Vtxos(Pick(a, vs)))[v] == multiset(Vtxos(Pick(b, vs)))[v] {
      PickMultiplicity(a, vs, v);
      PickMultiplicity(b, vs, v);
      OwnersPermutation(a, b, v);
    }
    SatsPermutation(Vtxos(Pick(a, vs)), Vtxos(Pick(b, vs)));
  }

  // ---------------------------------------------------------------------------
  // BTC change.

  const DUST: i64 := 330

  datatype BtcError = InsufficientBtc

  /** The maker and taker output values. */
  datatype BtcSplit = BtcSplit(maker: i64, taker: i64)

  /** makerBtcAmount: the dust carrier of an asset, or int64(WantAmount) sats. */
  function MakerSats(o: Offer): i64
  {
    if o.wantAsset.Some? then DUST else WrapI64(o.wantAmount)
  }

  function SplitBtc(o: Offer, takerTotal: u64, swapAmount: u64): Result<BtcSplit, BtcError>
  {
    var change := WrapI64(WrapI64(takerTotal) - MakerSats(o));
    if change < 0 then Err(InsufficientBtc)
    else Ok(BtcSplit(MakerSats(o), WrapI64(WrapI64(swapAmount) + change)))
  }

  /** The uint64 total of the taker's VTXOs. */
  method TotalSats(taker: seq<TakerVtxo>) returns (total: u64)
    ensures total == Sats(Vtxos(taker)) % TWO64
  {
    total := 0;
    assert Vtxos(taker[..0]) == [];
    for i := 0 to |taker|
      invariant total == Sats(Vtxos(taker[..i])) % TWO64
    {
      total := AddU64(total, taker[i].vtxo.amount);
      assert Vtxos(taker[..i + 1]) == Vtxos(taker[..i]) + [taker[i].vtxo];
      SatsSnoc(Vtxos(taker[..i]), taker[i].vtxo);
    }
    assert taker[..|taker|] == taker;
  }

  /** BTC in and BTC out always agree modulo 2^64. */
  lemma BtcCongruent(o: Offer, takerTotal: u64, swapAmount: u64) returns (laps: int)
    requires SplitBtc(o, takerTotal, swapAmount).Ok?
    ensures var s := SplitBtc(o, takerTotal, swapAmount).value;
            s.maker + s.taker == takerTotal + swapAmount + laps * 0x1_0000_0000_0000_0000
  {
    var t: int, w: int, m: int := WrapI64(takerTotal), WrapI64(swapAmount), MakerSats(o);
    var change: int := WrapI64(t - m);
    var a := Laps(takerTotal);
    var b := Laps(swapAmount);
    var c := Laps(t - m);
    var d := Laps(w + change);
    laps := -(a + b + c + d);
  }

  /** How many times an integer wraps around on its way into an int64. */
  lemma Laps(n: int) returns (q: int)
    ensures n - WrapI64(n) == q * 0x1_0000_0000_0000_0000
  {
    q := (n - WrapI64(n)) / TWO64;
  }

  /** The remainder modulo 2^64 of a number that is a known number of laps away from it. */
  lemma Remainder(n: int, r: int, q: int)
    requires 0 <= r < TWO64 && n == r + q * 0x1_0000_0000_0000_0000
    ensures n % TWO64 == r
  {
  }

  /** Wrapping twice on the way is the same as wrapping once; the sign tells the half of the range. */
  lemma WrapDifference(n: int, m: int)
    ensures WrapI64(WrapI64(n) - m) >= 0 <==> (n - m) % TWO64 < TWO63
  {
    var w: int := WrapI64(n);
    var a := Laps(n);
    var b := Laps(w - m);
    var change: int := WrapI64(w - m);
    if change >= 0 {
      Remainder(n - m, change, a + b);
    } else {
      Remainder(n - m, change + TWO64, a + b - 1);
    }
  }

  /** Success below 2^63 is being able to pay; success always leaves the difference not negative. */
  lemma SplitOkIff(o: Offer, takerTotal: u64, swapAmount: u64)
    ensures var need, r := MakerSats(o), SplitBtc(o, takerTotal, swapAmount);
            && (r.Ok? <==> (takerTotal - need) % TWO64 < TWO63)
            && (takerTotal < TWO63 && need >= 0 ==> (r.Ok? <==> takerTotal >= need))
            && (r.Ok? ==> takerTotal >= need)
  {
    var d := takerTotal - MakerSats(o);
    WrapDifference(takerTotal, MakerSats(o));
    if d < 0 {
      Remainder(d, d + TWO64, -1);
    } else if d < TWO64 {
      Remainder(d, d, 0);
    }
  }

  /**
   * The split succeeds iff the taker's total less the maker's sats is not negative in int64
   * arithmetic, which below 2^63 means that the taker can pay. Every sat is then conserved iff what
   * is left for the taker fits an int64; the taker gets at least the swap amount in that case, and
   * the maker gets WantAmount or the dust carrier unless a BTC want of 2^63 or more turned negative.
   */
  lemma BtcConserved(o: Offer, takerTotal: u64, swapAmount: u64)
    ensures var need, r := MakerSats(o), SplitBtc(o, takerTotal, swapAmount);
            && (r.Ok? <==> (takerTotal - need) % TWO64 < TWO63)
            && (takerTotal < TWO63 && need >= 0 ==> (r.Ok? <==> takerTotal >= need))
            && (r.Ok? ==>
                  && (r.value.maker + r.value.taker == takerTotal + swapAmount <==> takerTotal + swapAmount - need < TWO63)
                  && (takerTotal + swapAmount - need < TWO63 ==> r.value.taker >= swapAmount)
                  && (r.value.maker < 0 <==> o.wantAsset == None && o.wantAmount >= TWO63)
                  && (r.value.maker >= 0 ==> r.value.maker == if o.wantAsset.Some? then 330 else o.wantAmount))
  {
    SplitOkIff(o, takerTotal, swapAmount);
    if SplitBtc(o, takerTotal, swapAmount).Ok? {
      var laps := BtcCongruent(o, takerTotal, swapAmount);
      var taker: int := SplitBtc(o, takerTotal, swapAmount).value.taker;
      FitsIff(takerTotal + swapAmount - MakerSats(o), taker, laps);
    }
  }

  /** A wrapped number is the number itself iff that fits an int64. */
  lemma FitsIff(n: int, r: i64, laps: int)
    requires r == n + laps * 0x1_0000_0000_0000_0000 && n >= -TWO63
    ensures r == n <==> n < TWO63
  {
  }

  /** Conservation against the true total of the taker's sats, which the uint64 total may have wrapped. */
  lemma TrueTotalConserved(o: Offer, total: nat, swapAmount: u64)
    requires SplitBtc(o, total % TWO64, swapAmount).Ok?
    ensures var r := SplitBtc(o, total % TWO64, swapAmount).value;
            && (r.maker + r.taker == total + swapAmount <==> total + swapAmount - MakerSats(o) < TWO63)
            && (total + swapAmount - MakerSats(o) < TWO63 ==> r.taker >= swapAmount)
  {
    BtcConserved(o, total % TWO64, swapAmount);
    if total < TWO64 {
      assert total % TWO64 == total;
    }
  }
}

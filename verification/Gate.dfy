/** The banco plugin: pkg/banco/offer.go and the stages of pkg/banco/plugin.go. */
module Gate {
  import opened Base
  import opened Offers
  import opened Script
  import opened Contract
  import opened Pairs
  import opened Builder
  import PriceCache

  // ---------------------------------------------------------------------------
  // From a funding transaction to an offer with its deposit.

  /** A group of the funding transaction's asset packet; a new issuance has no ID yet. */
  datatype DepositGroup = DepositGroup(assetId: Option<AssetId>, outputs: seq<AssetOutput>)

  datatype FundingTx = FundingTx(txid: string, outputs: seq<TxOut>)

  /** A parsed ark extension: its packets, and the groups of its asset packet. */
  datatype Extension = Extension(packets: seq<Packet>, groups: seq<DepositGroup>)

  datatype BancoOffer = BancoOffer(offer: Offer, fundingTxid: string, depositAsset: Option<AssetId>, depositAmount: u64)

  /** The first output paying a script. */
  function FirstPaying(outputs: seq<TxOut>, pk: bytes): (i: Option<nat>)
    ensures i.Some? ==> i.value < |outputs| && outputs[i.value].pkScript == pk
    ensures i.Some? ==> forall j | 0 <= j < i.value :: outputs[j].pkScript != pk
    ensures i == None ==> forall j | 0 <= j < |outputs| :: outputs[j].pkScript != pk
  {
    if outputs == [] then None
    else if outputs[0].pkScript == pk then Some(0)
    else
      var rest := FirstPaying(outputs[1..], pk);
      if rest.Some? then
        assert forall j | 0 < j < |outputs| :: outputs[j] == outputs[1..][j - 1];
        Some(rest.value + 1)
      else
        assert forall j | 0 < j < |outputs| :: outputs[j] == outputs[1..][j - 1];
        None
  }

  /** A group deposits at an output when it has an ID and an entry for that output. */
  function DepositAt(g: DepositGroup, vout: int): Option<(AssetId, u64)>
  {
    var amount := AmountAt(g.outputs, vout);
    if g.assetId.Some? && amount.Some? then Some((g.assetId.value, amount.value)) else None
  }

  /** The deposit of the last depositing group. */
  function LastDeposit(gs: seq<DepositGroup>, vout: int): Option<(AssetId, u64)>
  {
    if gs == [] then None
    else
      var d := DepositAt(gs[|gs| - 1], vout);
      if d.Some? then d else LastDeposit(gs[..|gs| - 1], vout)
  }

  /** What a funding transaction offers: nothing, an offer with its deposit, or a broken packet. */
  function OfferFrom(c: Codecs, tx: FundingTx, ext: Extension): Result<Option<BancoOffer>, FindError>
  {
    var found := FindOffer(c, ext.packets);
    if found.Err? then Err(found.error)
    else if found.value == None then Ok(None)
    else
      var o := found.value.value;
      var i := FirstPaying(tx.outputs, o.swapPkScript);
      if i == None || tx.outputs[i.value].value <= 0 then Ok(None)
      else
        var d := LastDeposit(ext.groups, i.value % TWO16);
        if d.Some? then Ok(Some(BancoOffer(o, tx.txid, Some(d.value.0), d.value.1)))
        else Ok(Some(BancoOffer(o, tx.txid, None, tx.outputs[i.value].value)))
  }

  lemma {:induction false} LastDepositIff(gs: seq<DepositGroup>, vout: int)
    ensures LastDeposit(gs, vout) == None <==> forall k | 0 <= k < |gs| :: DepositAt(gs[k], vout) == None
    ensures LastDeposit(gs, vout).Some? ==>
              exists k | 0 <= k < |gs| ::
                && LastDeposit(gs, vout) == DepositAt(gs[k], vout)
                && forall j | k < j < |gs| :: DepositAt(gs[j], vout) == None
  {
    if gs != [] {
      var n := |gs| - 1;
      LastDepositIff(gs[..n], vout);
      if DepositAt(gs[n], vout) == None && LastDeposit(gs[..n], vout).Some? {
        var k :| 0 <= k < n && LastDeposit(gs[..n], vout) == DepositAt(gs[..n][k], vout)
          && forall j | k < j < n :: DepositAt(gs[..n][j], vout) == None;
        assert LastDeposit(gs, vout) == DepositAt(gs[k], vout);
        forall j | k < j < |gs| ensures DepositAt(gs[j], vout) == None {
          if j < n { assert gs[..n][j] == gs[j]; }
        }
      }
      assert forall k | 0 <= k < n :: gs[..n][k] == gs[k];
    }
  }

  /** Some output pays a script, and the first that does carries sats. */
  ghost predicate Funds(tx: FundingTx, pk: bytes)
  {
    exists i | 0 <= i < |tx.outputs| ::
      tx.outputs[i].pkScript == pk && tx.outputs[i].value > 0 && forall j | 0 <= j < i :: tx.outputs[j].pkScript != pk
  }

  /**
   * A transaction yields an offer exactly when its extension holds one and the first output paying
   * that offer's swap script carries sats, whatever is deposited; it fails exactly when the packet does.
   */
  lemma OfferFoundIff(c: Codecs, tx: FundingTx, ext: Extension)
    ensures var f, r := FindOffer(c, ext.packets), OfferFrom(c, tx, ext);
            && (r.Err? <==> f.Err?) && (f.Err? ==> r == Err(f.error))
            && (r.Ok? && r.value.Some? <==> f.Ok? && f.value.Some? && Funds(tx, f.value.value.swapPkScript))
  {
  }

  /** A group's first entry for an output, if it has one. */
  ghost predicate FirstEntry(g: DepositGroup, vout: int, j: nat)
  {
    j < |g.outputs| && g.outputs[j].vout == vout && forall h | 0 <= h < j :: g.outputs[h].vout != vout
  }

  /** A group names an asset and has an entry for an output. */
  ghost predicate Deposits(g: DepositGroup, vout: int)
  {
    g.assetId.Some? && exists j | 0 <= j < |g.outputs| :: g.outputs[j].vout == vout
  }

  lemma {:induction false} AmountAtIff(outs: seq<AssetOutput>, vout: int) returns (j: nat)
    ensures j <= |outs| && forall h | 0 <= h < j :: outs[h].vout != vout
    ensures j < |outs| ==> outs[j].vout == vout
    ensures AmountAt(outs, vout) == if j < |outs| then Some(outs[j].amount) else None
  {
    if outs == [] || outs[0].vout == vout {
      j := 0;
    } else {
      var k := AmountAtIff(outs[1..], vout);
      j := k + 1;
    }
  }

  lemma DepositAtIff(g: DepositGroup, vout: int)
    ensures DepositAt(g, vout).Some? <==> Deposits(g, vout)
    ensures DepositAt(g, vout).Some? ==>
              exists j: nat :: FirstEntry(g, vout, j) && DepositAt(g, vout) == Some((g.assetId.value, g.outputs[j].amount))
  {
    var j := AmountAtIff(g.outputs, vout);
    if j < |g.outputs| {
      assert FirstEntry(g, vout, j);
    }
  }

  /**
   * A found offer's deposit sits on the first output that pays its swap script. If no group that names
   * an asset has an entry for that output, cut to 16 bits, it is the output's sats; otherwise it is the
   * asset and the amount of the first such entry of the last such group, group `k`.
   */
  lemma DepositMeaning(c: Codecs, tx: FundingTx, ext: Extension) returns (i: nat, k: nat)
    requires OfferFrom(c, tx, ext).Ok? && OfferFrom(c, tx, ext).value.Some?
    ensures var b := OfferFrom(c, tx, ext).value.value;
            && FindOffer(c, ext.packets) == Ok(Some(b.offer)) && b.fundingTxid == tx.txid
            && i < |tx.outputs| && tx.outputs[i].pkScript == b.offer.swapPkScript && tx.outputs[i].value > 0
            && (forall j | 0 <= j < i :: tx.outputs[j].pkScript != b.offer.swapPkScript)
            && k <= |ext.groups| && (forall h | k < h < |ext.groups| :: !Deposits(ext.groups[h], i % 0x1_0000))
            && (k == |ext.groups| ==>
                  && (forall h | 0 <= h < k :: !Deposits(ext.groups[h], i % 0x1_0000))
                  && b.depositAsset == None && b.depositAmount == tx.outputs[i].value)
            && (k < |ext.groups| ==>
                  && Deposits(ext.groups[k], i % 0x1_0000)
                  && b.depositAsset == ext.groups[k].assetId
                  && exists j: nat :: FirstEntry(ext.groups[k], i % 0x1_0000, j) && b.depositAmount == ext.groups[k].outputs[j].amount)
  {
    i := FirstPaying(tx.outputs, OfferFrom(c, tx, ext).value.value.offer.swapPkScript).value;
    LastDepositIff(ext.groups, i % TWO16);
    forall h | 0 <= h < |ext.groups| ensures DepositAt(ext.groups[h], i % TWO16).Some? <==> Deposits(ext.groups[h], i % TWO16) {
      DepositAtIff(ext.groups[h], i % TWO16);
    }
    k := |ext.groups|;
    if LastDeposit(ext.groups, i % TWO16).Some? {
      k :| 0 <= k < |ext.groups| && LastDeposit(ext.groups, i % TWO16) == DepositAt(ext.groups[k], i % TWO16)
        && forall h | k < h < |ext.groups| :: DepositAt(ext.groups[h], i % TWO16) == None;
      DepositAtIff(ext.groups[k], i % TWO16);
    }
  }

  /** The inner loop over one group's outputs: the first entry for the swap output decides. */
  method ScanGroup(g: DepositGroup, vout: int) returns (d: Option<(AssetId, u64)>)
    ensures d == DepositAt(g, vout)
  {
    d := None;
    for j := 0 to |g.outputs|
      invariant d == None && AmountAt(g.outputs, vout) == AmountAt(g.outputs[j..], vout)
    {
      assert g.outputs[j..][1..] == g.outputs[j + 1..];
      if g.outputs[j].vout == vout {
        if g.assetId.Some? {
          d := Some((g.assetId.value, g.outputs[j].amount));
        }
        break;
      }
    }
  }

  method NewOfferFromExtension(c: Codecs, tx: FundingTx, ext: Extension) returns (r: Result<Option<BancoOffer>, FindError>)
    ensures r == OfferFrom(c, tx, ext)
  {
    var found := FindBancoOffer(c, ext.packets);
    if found.Err? {
      return Err(found.error);
    }
    if found.value == None {
      return Ok(None);
    }
    var offer := found.value.value;
    var swapOutputValue: i64 := 0;
    var swapOutputIndex := 0;
    var i := 0;
    while i < |tx.outputs|
      invariant 0 <= i <= |tx.outputs|
      invariant swapOutputValue == 0 && swapOutputIndex == 0
      invariant forall j | 0 <= j < i :: tx.outputs[j].pkScript != offer.swapPkScript
    {
      if tx.outputs[i].pkScript == offer.swapPkScript {
        swapOutputValue := tx.outputs[i].value;
        swapOutputIndex := i;
        break;
      }
      i := i + 1;
    }
    ghost var first := FirstPaying(tx.outputs, offer.swapPkScript);
    if swapOutputValue <= 0 {
      return Ok(None);
    }
    assert first == Some(swapOutputIndex);
    var o := BancoOffer(offer, tx.txid, None, swapOutputValue);
    for k := 0 to |ext.groups|
      invariant o == var d := LastDeposit(ext.groups[..k], swapOutputIndex % TWO16);
                     if d.Some? then BancoOffer(offer, tx.txid, Some(d.value.0), d.value.1)
                     else BancoOffer(offer, tx.txid, None, swapOutputValue)
    {
      assert ext.groups[..k + 1][..k] == ext.groups[..k];
      var d := ScanGroup(ext.groups[k], swapOutputIndex % TWO16);
      if d.Some? {
        o := o.(depositAsset := Some(d.value.0), depositAmount := d.value.1);
      }
    }
    assert ext.groups[..|ext.groups|] == ext.groups;
    r := Ok(Some(o));
  }

  // ---------------------------------------------------------------------------
  // Prices, in exact arithmetic.

  function Pow10(n: int): (r: real)
    ensures r > 0.0
    decreases if n < 0 then -n else n
  {
    if n == 0 then 1.0 else if n > 0 then 10.0 * Pow10(n - 1) else Pow10(n + 1) / 10.0
  }

  lemma Quotient(a: real, b: real)
    requires a > 0.0 && b > 0.0
    ensures a / b > 0.0 && (a / b) * b == a
  {
  }

  /** An amount in whole units of its asset. */
  function Units(amount: u64, decimals: i64): (r: real)
    ensures amount > 0 ==> r > 0.0
  {
    if amount > 0 then Quotient(amount as real, Pow10(decimals)); amount as real / Pow10(decimals)
    else 0.0
  }

  /** ComputePrice: base units deposited per quote unit wanted. */
  function ComputePrice(o: BancoOffer, p: Pair): (r: Option<real>)
    ensures r.Some? <==> o.depositAmount > 0 && o.offer.wantAmount > 0
    ensures r.Some? ==> r.value > 0.0
  {
    if o.depositAmount == 0 || o.offer.wantAmount == 0 then None
    else
      Quotient(Units(o.depositAmount, p.baseDecimals), Units(o.offer.wantAmount, p.quoteDecimals));
      Some(Units(o.depositAmount, p.baseDecimals) / Units(o.offer.wantAmount, p.quoteDecimals))
  }

  /** Ten to the n as an integer. */
  function TenTo(n: nat): (r: nat)
    ensures r > 0
  {
    if n == 0 then 1 else TenTo(n - 1) * 10
  }

  lemma {:induction false} Pow10IsTenTo(n: nat)
    ensures Pow10(n) == TenTo(n) as real
  {
    if n > 0 {
      Pow10IsTenTo(n - 1);
    }
  }

  /** Moving the decimal point n places to the right, or left when n is negative. */
  function Shift(x: real, n: int): real
    decreases if n < 0 then -n else n
  {
    if n == 0 then x else if n > 0 then 10.0 * Shift(x, n - 1) else Shift(x, n + 1) / 10.0
  }

  lemma ShiftStep(x: real, n: int)
    ensures Shift(x, n + 1) == 10.0 * Shift(x, n)
  {
  }

  /** Shifts add up. */
  lemma {:induction false} ShiftShift(x: real, a: int, b: int)
    ensures Shift(Shift(x, a), b) == Shift(x, a + b)
    decreases if b < 0 then -b else b
  {
    if b > 0 {
      ShiftShift(x, a, b - 1);
      ShiftStep(x, a + b - 1);
    } else if b < 0 {
      ShiftShift(x, a, b + 1);
      ShiftStep(x, a + b);
    }
  }

  /** What an amount is worth at a price per unit. */
  function Worth(amount: real, price: real): real { amount * price }

  /** A shifted amount is worth its shifted worth. */
  lemma {:induction false} ShiftWorth(x: real, price: real, n: int)
    ensures Shift(Worth(x, price), n) == Worth(Shift(x, n), price)
    decreases if n < 0 then -n else n
  {
    if n > 0 {
      ShiftWorth(x, price, n - 1);
      MoveTen(Shift(x, n - 1), price);
    } else if n < 0 {
      ShiftWorth(x, price, n + 1);
      MoveTenth(Shift(x, n + 1), price);
    }
  }

  lemma MoveTen(x: real, y: real)
    ensures 10.0 * (x * y) == (10.0 * x) * y
  {
  }

  lemma MoveTenth(x: real, y: real)
    ensures (x * y) / 10.0 == (x / 10.0) * y
  {
  }

  lemma {:induction false} ShiftPositive(x: real, n: int)
    ensures Shift(x, n) > 0.0 <==> x > 0.0
    decreases if n < 0 then -n else n
  {
    if n > 0 {
      ShiftPositive(x, n - 1);
    } else if n < 0 {
      ShiftPositive(x, n + 1);
    }
  }

  /** A shift multiplies by the power of ten. */
  lemma ShiftMeaning(x: real, n: int)
    ensures Shift(x, n) == Worth(Pow10(n), x)
  {
    hide Shift, Pow10;
    ShiftOne(n);
    ShiftWorth(1.0, x, n);
  }

  /** Pow10 is the power of ten: it turns sums into products, and one into ten. */
  lemma Pow10Add(a: int, b: int)
    ensures Pow10(1) == 10.0 && Pow10(a + b) == Worth(Pow10(b), Pow10(a))
  {
    hide Worth, Shift;
    assert Pow10(1) == 10.0 * Pow10(0);
    ShiftOne(a);
    ShiftOne(a + b);
    ShiftShift(1.0, a, b);
    ShiftMeaning(Pow10(a), b);
  }

  /** An amount scaled by a power of ten, in integers. */
  function Scaled(amount: nat, n: nat): nat { TenTo(n) * amount }

  /** Shifting an integer to the right is scaling it. */
  lemma ShiftScales(amount: nat, n: nat)
    ensures Shift(amount as real, n) == Scaled(amount, n) as real
  {
    hide Shift, Pow10, TenTo;
    ShiftMeaning(amount as real, n);
    Pow10IsTenTo(n);
    CastProduct(TenTo(n), amount);
  }

  lemma CastProduct(a: nat, b: nat)
    ensures (a * b) as real == a as real * b as real
  {
  }

  lemma {:induction false} ShiftOne(n: int)
    ensures Shift(1.0, n) == Pow10(n)
    decreases if n < 0 then -n else n
  {
    if n > 0 {
      ShiftOne(n - 1);
    } else if n < 0 {
      ShiftOne(n + 1);
    }
  }

  /** A scaled amount, shifted back, is the amount. */
  lemma UnitsShift(amount: u64, decimals: i64)
    requires amount > 0
    ensures Shift(Units(amount, decimals), decimals) == amount as real
  {
    hide Shift, Pow10;
    Quotient(amount as real, Pow10(decimals));
    ShiftMeaning(Units(amount, decimals), decimals);
  }

  /**
   * The price in amounts and decimals: at the price, the wanted amount is worth the deposited amount
   * shifted by the difference of the decimals; with decimals that are not negative this is
   * want * 10^base * price == deposit * 10^quote.
   */
  lemma PriceIsRate(o: BancoOffer, p: Pair)
    requires ComputePrice(o, p).Some?
    ensures var price, deposit, want := ComputePrice(o, p).value, o.depositAmount as real, o.offer.wantAmount as real;
            && Worth(want, price) == Shift(deposit, p.quoteDecimals - p.baseDecimals)
            && Worth(Shift(want, p.baseDecimals), price) == Shift(deposit, p.quoteDecimals)
            && (p.baseDecimals >= 0 && p.quoteDecimals >= 0 ==>
                  Worth(Scaled(o.offer.wantAmount, p.baseDecimals) as real, price)
                  == Scaled(o.depositAmount, p.quoteDecimals) as real)
  {
    hide ComputePrice, Units, Worth, Scaled;
    var x, y := Units(o.depositAmount, p.baseDecimals), Units(o.offer.wantAmount, p.quoteDecimals);
    PriceQuotient(o, p);
    UnitsShift(o.depositAmount, p.baseDecimals);
    UnitsShift(o.offer.wantAmount, p.quoteDecimals);
    RateOfShifted(ComputePrice(o, p).value, x, y, o.depositAmount as real, o.offer.wantAmount as real,
                  p.baseDecimals, p.quoteDecimals);
    if p.baseDecimals >= 0 && p.quoteDecimals >= 0 {
      ShiftScales(o.offer.wantAmount, p.baseDecimals);
      ShiftScales(o.depositAmount, p.quoteDecimals);
    }
  }

  lemma PriceQuotient(o: BancoOffer, p: Pair)
    requires ComputePrice(o, p).Some?
    ensures Worth(Units(o.offer.wantAmount, p.quoteDecimals), ComputePrice(o, p).value) == Units(o.depositAmount, p.baseDecimals)
  {
    hide Units;
    Quotient(Units(o.depositAmount, p.baseDecimals), Units(o.offer.wantAmount, p.quoteDecimals));
  }

  lemma RateOfShifted(rate: real, x: real, y: real, deposit: real, want: real, b: int, q: int)
    requires Worth(y, rate) == x && Shift(x, b) == deposit && Shift(y, q) == want
    ensures Worth(want, rate) == Shift(deposit, q - b)
    ensures Worth(Shift(want, b), rate) == Shift(deposit, q)
  {
    hide Worth;
    ShiftWorth(y, rate, q);
    ShiftShift(x, b, q - b);
    ShiftWorth(want, rate, b);
    ShiftShift(x, q, b);
    ShiftShift(x, b, q);
  }

  /** validatePrice. */
  predicate WithinOnePercent(price: real, feed: real)
  {
    feed * 0.99 <= price <= feed * 1.01
  }

  /** The feed price to compare with; None when there is none, or it is the infinity 1/0. */
  function FeedPrice(q: PriceCache.Quote, invert: bool): Option<real>
  {
    match q
    case Unavailable => None
    case Stale(price) => if price == 0.0 then None else Some(if invert then 1.0 / price else price)
    case Fresh(price) => if invert && price == 0.0 then None else Some(if invert then 1.0 / price else price)
  }

  /** checkPriceTolerance. */
  function CheckPrice(o: BancoOffer, p: Pair, q: PriceCache.Quote): Verdict
  {
    var feed, price := FeedPrice(q, p.invertPrice), ComputePrice(o, p);
    if feed.Some? && price.Some? && WithinOnePercent(price.value, feed.value) then Pass else Miss
  }

  /** The feed to compare with: the quoted price, or its inverse; none without a quote, or when that is zero and unusable. */
  lemma FeedMeaning(q: PriceCache.Quote, invert: bool)
    ensures var feed := FeedPrice(q, invert);
            && (feed.Some? <==> !q.Unavailable? && (q.price != 0.0 || (q.Fresh? && !invert)))
            && (feed.Some? ==> if invert then feed.value * q.price == 1.0 else feed.value == q.price)
            && (feed.Some? ==> (feed.value > 0.0 <==> q.price > 0.0))
  {
    if invert && !q.Unavailable? && q.price != 0.0 {
      var inverse := 1.0 / q.price;
      assert inverse * q.price == 1.0;
    }
  }

  /** x deviates from y by at most one hundredth of y. */
  predicate Near(x: real, y: real) { -y <= 100.0 * (x - y) <= y }

  /** A bound on a rate is a bound on the amounts it relates. */
  lemma NearScales(k: real, x: real, y: real)
    requires k > 0.0
    ensures Near(x, y) <==> Near(Worth(k, x), Worth(k, y))
  {
    var up, down := y - 100.0 * (x - y), y + 100.0 * (x - y);
    assert k * up == k * y - 100.0 * (k * x - k * y);
    assert k * down == k * y + 100.0 * (k * x - k * y);
    SignOfProduct(k, up);
    SignOfProduct(k, down);
  }

  lemma SignOfProduct(k: real, x: real)
    requires k > 0.0
    ensures k * x >= 0.0 <==> x >= 0.0
  {
  }

  /** An amount at the inverse of a price, multiplied by the price, is the amount. */
  lemma InverseCancels(amount: real, inverse: real, price: real)
    requires inverse * price == 1.0
    ensures Worth(price, Worth(amount, inverse)) == amount
  {
    assert price * (amount * inverse) == amount * (inverse * price);
  }

  lemma WorthCommutes(x: real, y: real)
    ensures Worth(x, y) == Worth(y, x)
  {
  }

  lemma WithinIsNear(x: real, feed: real)
    requires x > 0.0
    ensures WithinOnePercent(x, feed) <==> feed > 0.0 && Near(x, feed)
  {
    assert feed * 1.01 == feed + feed * 0.01 && feed * 0.99 == feed - feed * 0.01;
  }

  /**
   * A trade is priced right: at a positive quote, what is deposited is within 1% of what is wanted in
   * exchange, both scaled to a common unit; an inverted pair multiplies the deposit by the quoted
   * price instead of the want.
   */
  predicate PricedRight(deposit: real, want: real, q: PriceCache.Quote, invert: bool)
  {
    && !q.Unavailable? && q.price > 0.0 && deposit > 0.0 && want > 0.0
    && if invert then Near(Worth(deposit, q.price), want) else Near(deposit, Worth(want, q.price))
  }

  /**
   * The price check passes exactly when the trade is priced right, in amounts: the deposited amount is
   * shifted by the difference of the pair's decimals.
   */
  lemma PricePassIff(o: BancoOffer, p: Pair, q: PriceCache.Quote)
    ensures CheckPrice(o, p, q) == Pass
            <==> PricedRight(Shift(o.depositAmount as real, p.quoteDecimals - p.baseDecimals), o.offer.wantAmount as real,
                             q, p.invertPrice)
  {
    hide ComputePrice, FeedPrice, WithinOnePercent, Near, Worth;
    var feed, price := FeedPrice(q, p.invertPrice), ComputePrice(o, p);
    ShiftPositive(o.depositAmount as real, p.quoteDecimals - p.baseDecimals);
    FeedMeaning(q, p.invertPrice);
    if price.Some? {
      PriceIsRate(o, p);
      if feed.Some? {
        RateNearIff(price.value, feed.value, o.offer.wantAmount as real,
                    Shift(o.depositAmount as real, p.quoteDecimals - p.baseDecimals), q.price, p.invertPrice);
      }
    }
  }

  /** A rate near a feed, in the amounts it relates. */
  lemma RateNearIff(rate: real, feed: real, want: real, gives: real, quote: real, invert: bool)
    requires rate > 0.0 && want > 0.0 && Worth(want, rate) == gives
    requires if invert then feed * quote == 1.0 else feed == quote
    requires feed > 0.0 <==> quote > 0.0
    ensures WithinOnePercent(rate, feed)
            <==> quote > 0.0 && if invert then Near(Worth(gives, quote), want) else Near(gives, Worth(want, quote))
  {
    hide Near, Worth, WithinOnePercent;
    WithinIsNear(rate, feed);
    NearScales(want, rate, feed);
    if invert && quote > 0.0 {
      NearScales(quote, gives, Worth(want, feed));
      InverseCancels(want, feed, quote);
      WorthCommutes(quote, gives);
    }
  }

  lemma {:induction false} NearShifts(x: real, y: real, n: int)
    ensures Near(x, y) <==> Near(Shift(x, n), Shift(y, n))
    decreases if n < 0 then -n else n
  {
    if n > 0 {
      NearShifts(x, y, n - 1);
    } else if n < 0 {
      NearShifts(x, y, n + 1);
    }
  }

  /** Pricing does not depend on the common unit. */
  lemma PricedShifts(deposit: real, want: real, q: PriceCache.Quote, invert: bool, n: int)
    ensures PricedRight(deposit, want, q, invert) <==> PricedRight(Shift(deposit, n), Shift(want, n), q, invert)
  {
    hide Near, Worth;
    ShiftPositive(deposit, n);
    ShiftPositive(want, n);
    if !q.Unavailable? {
      if invert {
        NearShifts(Worth(deposit, q.price), want, n);
        ShiftWorth(deposit, q.price, n);
      } else {
        NearShifts(deposit, Worth(want, q.price), n);
        ShiftWorth(want, q.price, n);
      }
    }
  }

  // ---------------------------------------------------------------------------
  // The staged gate.

  datatype MatchedOffer = MatchedOffer(offer: BancoOffer, pair: Pair)

  /** What the stages see outside the transaction: pair list, price cache answers, wallet balance. */
  datatype Surroundings = Surroundings(
    codecs: Codecs,
    printId: AssetId -> string,
    pairs: Option<seq<Pair>>,
    quote: string -> PriceCache.Quote,
    balance: Option<u64>,
    isExtension: bytes -> bool,                            // extension.IsExtension on an output script
    parseExtension: FundingTx -> Option<Extension>)        // NewExtensionFromTx; None when absent or malformed

  function DepositName(w: Surroundings, o: BancoOffer): string
  {
    if o.depositAsset.Some? then w.printId(o.depositAsset.value) else "BTC"
  }

  function WantName(w: Surroundings, o: BancoOffer): string
  {
    if o.offer.wantAsset.Some? then w.printId(o.offer.wantAsset.value) else ""
  }

  /** HasArkExtension: the cheap filter on output scripts. */
  predicate HasExtension(w: Surroundings, tx: FundingTx)
  {
    exists i | 0 <= i < |tx.outputs| :: w.isExtension(tx.outputs[i].pkScript)
  }

  /** ForExtension's decode stage: parse the extension, which may fail, and hand it to the plugin. */
  function Decode(w: Surroundings, tx: FundingTx): Option<MatchedOffer>
  {
    var ext := w.parseExtension(tx);
    if ext == None then None else DecodeExtension(w, tx, ext.value)
  }

  /** plugin.decode. */
  function DecodeExtension(w: Surroundings, tx: FundingTx, ext: Extension): Option<MatchedOffer>
  {
    var o := OfferFrom(w.codecs, tx, ext);
    if o.Err? || o.value == None || w.pairs == None then None
    else PairUp(o.value.value, w.pairs.value, DepositName(w, o.value.value), WantName(w, o.value.value))
  }

  function PairUp(b: BancoOffer, pairs: seq<Pair>, deposit: string, want: string): Option<MatchedOffer>
  {
    var p := FirstMatch(pairs, deposit, want);
    if p.Some? then Some(MatchedOffer(b, p.value)) else None
  }

  function CheckAmount(m: MatchedOffer): Verdict
  {
    if m.offer.offer.wantAmount < m.pair.minAmount || m.offer.offer.wantAmount > m.pair.maxAmount then Miss else Pass
  }

  function CheckBalance(w: Surroundings, m: MatchedOffer): Verdict
  {
    if m.offer.offer.wantAsset.Some? then Pass
    else if w.balance == None then Error
    else if w.balance.value < m.offer.offer.wantAmount then Miss
    else Pass
  }

  // The stages as values.

  function ExtensionFilter(w: Surroundings): FundingTx -> bool { (tx: FundingTx) => HasExtension(w, tx) }

  function Decoder(w: Surroundings): FundingTx -> Option<MatchedOffer> { (tx: FundingTx) => Decode(w, tx) }

  function AmountStage(): MatchedOffer -> Verdict { (m: MatchedOffer) => CheckAmount(m) }

  function PriceStage(w: Surroundings): MatchedOffer -> Verdict
  {
    (m: MatchedOffer) => CheckPrice(m.offer, m.pair, w.quote(m.pair.priceFeed))
  }

  function BalanceStage(w: Surroundings): MatchedOffer -> Verdict { (m: MatchedOffer) => CheckBalance(w, m) }

  /** NewPlugin: one filter, the decoder and three validators in this order. */
  function BancoPlugin(w: Surroundings): Plugin<FundingTx, MatchedOffer>
  {
    Plugin([ExtensionFilter(w)], Decoder(w), [AmountStage(), PriceStage(w), BalanceStage(w)])
  }

  /**
   * What makes an intent: an extension output, a parsed extension that yields the offer, the first pair
   * of the list whose name is made of the deposit and the want, the pair's window, the right price,
   * and enough BTC when BTC is wanted.
   */
  ghost predicate Qualifies(w: Surroundings, tx: FundingTx, m: MatchedOffer)
  {
    var ext, want := w.parseExtension(tx), m.offer.offer.wantAmount;
    && (exists i | 0 <= i < |tx.outputs| :: w.isExtension(tx.outputs[i].pkScript))
    && ext.Some? && OfferFrom(w.codecs, tx, ext.value) == Ok(Some(m.offer))
    && w.pairs.Some?
    && (exists k: nat ::
          && FirstAt(w.pairs.value,
                     if m.offer.depositAsset.Some? then w.printId(m.offer.depositAsset.value) else "BTC",
                     if m.offer.offer.wantAsset.Some? then w.printId(m.offer.offer.wantAsset.value) else "", k)
          && w.pairs.value[k] == m.pair)
    && m.pair.minAmount <= want <= m.pair.maxAmount
    && PricedRight(Shift(m.offer.depositAmount as real, m.pair.quoteDecimals - m.pair.baseDecimals), want as real,
                   w.quote(m.pair.priceFeed), m.pair.invertPrice)
    && (m.offer.offer.wantAsset == None ==> w.balance.Some? && want <= w.balance.value)
  }

  lemma GateStages(w: Surroundings, tx: FundingTx)
    ensures var p := BancoPlugin(w);
            && StageCount(p) == 5
            && (StagePasses(p, tx, 0) <==> HasExtension(w, tx))
            && (StagePasses(p, tx, 1) <==> Decode(w, tx).Some?)
            && (Decode(w, tx).Some? ==>
                  && (StagePasses(p, tx, 2) <==> CheckAmount(Decode(w, tx).value) == Pass)
                  && (StagePasses(p, tx, 3)
                      <==> CheckPrice(Decode(w, tx).value.offer, Decode(w, tx).value.pair,
                                      w.quote(Decode(w, tx).value.pair.priceFeed)) == Pass)
                  && (StagePasses(p, tx, 4) <==> CheckBalance(w, Decode(w, tx).value) == Pass))
  {
  }

  /** Decoding yields an intent exactly when the extension yields its offer and the pair list its pair. */
  lemma DecodeIff(w: Surroundings, tx: FundingTx, m: MatchedOffer)
    ensures Decode(w, tx) == Some(m)
            <==> && w.parseExtension(tx).Some?
                 && OfferFrom(w.codecs, tx, w.parseExtension(tx).value) == Ok(Some(m.offer))
                 && w.pairs.Some?
                 && FirstMatch(w.pairs.value, DepositName(w, m.offer), WantName(w, m.offer)) == Some(m.pair)
  {
  }

  /** An intent comes out iff the filter passes, it is decoded and the three validators pass. */
  lemma GatePasses(w: Surroundings, tx: FundingTx, m: MatchedOffer)
    ensures MatchResult(BancoPlugin(w), tx) == Some(m)
            <==> && HasExtension(w, tx) && Decode(w, tx) == Some(m) && CheckAmount(m) == Pass
                 && CheckPrice(m.offer, m.pair, w.quote(m.pair.priceFeed)) == Pass && CheckBalance(w, m) == Pass
  {
    hide Decode, CheckPrice, CheckAmount, CheckBalance, HasExtension;
    GateStages(w, tx);
    FiveStages(BancoPlugin(w), tx);
  }

  /** Match hands an intent to Solve exactly when it qualifies. */
  lemma GateIff(w: Surroundings, tx: FundingTx, m: MatchedOffer)
    ensures MatchResult(BancoPlugin(w), tx) == Some(m) <==> Qualifies(w, tx, m)
  {
    hide PricedRight, Decode, CheckPrice, MatchResult, BancoPlugin, OfferFrom, FirstMatch;
    GatePasses(w, tx, m);
    DecodeIff(w, tx, m);
    PricePassIff(m.offer, m.pair, w.quote(m.pair.priceFeed));
    if w.pairs.Some? {
      FirstMatchIff(w.pairs.value, DepositName(w, m.offer), WantName(w, m.offer), m.pair);
    }
  }

  lemma FiveStages<X, T>(p: Plugin<X, T>, tx: X)
    requires StageCount(p) == 5
    ensures MatchResult(p, tx)
            == if StagePasses(p, tx, 0) && StagePasses(p, tx, 1) && StagePasses(p, tx, 2)
                  && StagePasses(p, tx, 3) && StagePasses(p, tx, 4) then p.decode(tx) else None
  {
  }

  /** NewPlugin assembles the stages through the builder. */
  method NewPlugin(w: Surroundings) returns (p: Plugin<FundingTx, MatchedOffer>)
    ensures p == BancoPlugin(w)
  {
    var b := new Builder<FundingTx, MatchedOffer>();
    b.Filter(Some(ExtensionFilter(w)));
    b.Decode(Decoder(w));
    b.Validate(Some(AmountStage()));
    b.Validate(Some(PriceStage(w)));
    b.Validate(Some(BalanceStage(w)));
    b.Solve();
    var r := b.Build();
    p := r.value;
  }

  /** What a transaction decodes to does not depend on the order in which the store lists its pairs. */
  lemma DecodeIgnoresOrder(w: Surroundings, tx: FundingTx, t: Table, listing: seq<Pair>, other: seq<Pair>)
    requires IsListing(t, listing) && IsListing(t, other) && w.pairs == Some(listing) && SoundTable(t)
    ensures Decode(w.(pairs := Some(other)), tx) == Decode(w, tx)
  {
    var b := DecodeWith(w, tx, listing, other);
    if b.Some? {
      PairUpIgnoresOrder(b.value, t, listing, other, DepositName(w, b.value), WantName(w, b.value));
    }
  }

  /** The pair list enters decoding only in the choice of the pair. */
  lemma DecodeWith(w: Surroundings, tx: FundingTx, xs: seq<Pair>, ys: seq<Pair>) returns (b: Option<BancoOffer>)
    requires w.pairs == Some(xs)
    ensures b == None ==> Decode(w, tx) == None && Decode(w.(pairs := Some(ys)), tx) == None
    ensures b.Some? ==>
              var deposit, want := DepositName(w, b.value), WantName(w, b.value);
              && Decode(w, tx) == PairUp(b.value, xs, deposit, want)
              && Decode(w.(pairs := Some(ys)), tx) == PairUp(b.value, ys, deposit, want)
  {
    var ext := w.parseExtension(tx);
    if ext == None {
      return None;
    }
    var o := OfferFrom(w.codecs, tx, ext.value);
    b := if o.Ok? then o.value else None;
  }

  lemma PairUpIgnoresOrder(b: BancoOffer, t: Table, xs: seq<Pair>, ys: seq<Pair>, deposit: string, want: string)
    requires IsListing(t, xs) && IsListing(t, ys) && SoundTable(t)
    ensures PairUp(b, xs, deposit, want) == PairUp(b, ys, deposit, want)
  {
    MatchIgnoresOrder(t, xs, ys, deposit, want);
  }

  /** A decoded intent names a stored, valid pair that fits its offer, and does not want BTC. */
  lemma DecodedPair(w: Surroundings, tx: FundingTx, t: Table, listing: seq<Pair>)
    requires IsListing(t, listing) && w.pairs == Some(listing) && SoundTable(t) && Decode(w, tx).Some?
    ensures var m := Decode(w, tx).value;
            && m.pair.name in t && m.pair == ToDomain(t[m.pair.name]) && Sound(m.pair)
            && m.pair.baseDecimals >= 0 && m.pair.quoteDecimals >= 0
            && m.pair.name.text == DepositName(w, m.offer) + "/" + WantName(w, m.offer)
            && m.offer.offer.wantAsset.Some?
  {
    var m := Decode(w, tx).value;
    NameFromParts(m.pair);
    if m.offer.offer.wantAsset == None {
      BtcWantNeverMatches(t, listing, DepositName(w, m.offer));
    }
  }

  /** The price condition of an intent, in integers. */
  lemma PricedInIntegers(m: MatchedOffer, quote: PriceCache.Quote)
    requires m.pair.baseDecimals >= 0 && m.pair.quoteDecimals >= 0
    ensures PricedRight(Shift(m.offer.depositAmount as real, m.pair.quoteDecimals - m.pair.baseDecimals),
                        m.offer.offer.wantAmount as real, quote, m.pair.invertPrice)
            <==> PricedRight(Scaled(m.offer.depositAmount, m.pair.quoteDecimals) as real,
                             Scaled(m.offer.offer.wantAmount, m.pair.baseDecimals) as real, quote, m.pair.invertPrice)
  {
    hide PricedRight, Scaled;
    var d, b, q := m.offer.depositAmount as real, m.pair.baseDecimals, m.pair.quoteDecimals;
    PricedShifts(Shift(d, q - b), m.offer.offer.wantAmount as real, quote, m.pair.invertPrice, b);
    ShiftShift(d, q - b, b);
    ShiftScales(m.offer.depositAmount, q);
    ShiftScales(m.offer.offer.wantAmount, b);
  }

  /**
   * Over every run of the pair service and whatever order its store lists pairs in: an intent that
   * reaches Solve names the one stored pair that is called after the offer's deposit and want, respects
   * that pair's window 0 < min <= want <= max, is priced right in integer amounts at a positive quote,
   * and never wants BTC.
   */
  lemma SolvedOffersAreSound(w: Surroundings, tx: FundingTx, rs: seq<(Request, string -> Option<i64>)>, listing: seq<Pair>,
                             m: MatchedOffer)
    requires IsListing(Replay(rs), listing) && w.pairs == Some(listing)
    requires MatchResult(BancoPlugin(w), tx) == Some(m)
    ensures m.pair.name in Replay(rs) && m.pair == ToDomain(Replay(rs)[m.pair.name])
    ensures m.offer.offer.wantAsset.Some?
    ensures var deposit := if m.offer.depositAsset.Some? then w.printId(m.offer.depositAsset.value) else "BTC";
            m.pair.name.text == deposit + "/" + w.printId(m.offer.offer.wantAsset.value)
    ensures 0 < m.pair.minAmount <= m.offer.offer.wantAmount <= m.pair.maxAmount
    ensures m.pair.baseDecimals >= 0 && m.pair.quoteDecimals >= 0
    ensures PricedRight(Scaled(m.offer.depositAmount, m.pair.quoteDecimals) as real,
                        Scaled(m.offer.offer.wantAmount, m.pair.baseDecimals) as real,
                        w.quote(m.pair.priceFeed), m.pair.invertPrice)
    ensures forall other :: IsListing(Replay(rs), other) ==> Decode(w.(pairs := Some(other)), tx) == Some(m)
  {
    hide PricedRight, Decode, IsListing, Replay, Scaled, MatchResult, BancoPlugin, FirstMatch, OfferFrom, Shift;
    GateIff(w, tx, m);
    DecodeIff(w, tx, m);
    FirstMatchIff(listing, DepositName(w, m.offer), WantName(w, m.offer), m.pair);
    StoreStaysSound(rs);
    DecodedPair(w, tx, Replay(rs), listing);
    PricedInIntegers(m, w.quote(m.pair.priceFeed));
    forall other | IsListing(Replay(rs), other) ensures Decode(w.(pairs := Some(other)), tx) == Some(m) {
      DecodeIgnoresOrder(w, tx, Replay(rs), listing, other);
    }
  }
}

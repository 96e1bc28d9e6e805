/**
 * Trading pairs: pkg/banco/pair.go, the pair methods of internal/core/application/service.go and
 * the store of internal/infrastructure/db/sqlite/repo.go.
 */
module Pairs {
  import opened Base

  /** The primary key of the pair table. */
  datatype PairName = PairName(text: string)

  datatype Pair = Pair(
    name: PairName,
    minAmount: u64,
    maxAmount: u64,
    baseDecimals: i64,
    quoteDecimals: i64,
    priceFeed: string,
    invertPrice: bool)

  // ---------------------------------------------------------------------------
  // Names.

  /** The position of the first '/'. */
  function FirstSlash(s: string): (i: Option<nat>)
    ensures i.Some? ==> i.value < |s| && s[i.value] == '/' && '/' !in s[..i.value]
    ensures i == None ==> '/' !in s
  {
    if s == [] then None
    else if s[0] == '/' then Some(0)
    else
      var rest := FirstSlash(s[1..]);
      if rest.Some? then
        assert s[..rest.value + 1] == [s[0]] + s[1..][..rest.value];
        Some(rest.value + 1)
      else None
  }

  /** Pair.Base: everything before the first '/'. */
  function BaseOf(p: Pair): string
  {
    var i := FirstSlash(p.name.text);
    if i.Some? then p.name.text[..i.value] else p.name.text
  }

  /** Pair.Quote: everything after the first '/', or nothing. */
  function QuoteOf(p: Pair): string
  {
    var i := FirstSlash(p.name.text);
    if i.Some? then p.name.text[i.value + 1..] else ""
  }

  /** splitPair: both sides must be there. */
  function SplitName(name: string): Option<(string, string)>
  {
    var i := FirstSlash(name);
    if i == None || i.value == 0 || i.value + 1 == |name| then None
    else Some((name[..i.value], name[i.value + 1..]))
  }

  /** A name splits when it does not start with '/' and has one before its last character. */
  ghost predicate Splittable(name: string)
  {
    name != "" && name[0] != '/' && exists i | 0 < i < |name| - 1 :: name[i] == '/'
  }

  /** splitPair cuts the splittable names, and only those, into nonempty sides at the first '/'. */
  lemma SplitNameIff(name: string)
    ensures SplitName(name).Some? <==> Splittable(name)
    ensures SplitName(name).Some? ==>
              var (b, q) := SplitName(name).value;
              name == b + "/" + q && '/' !in b && b != "" && q != ""
  {
    var f := FirstSlash(name);
    if Splittable(name) {
      var i :| 0 < i < |name| - 1 && name[i] == '/';
      assert f.Some? && f.value <= i;
    }
  }

  /** Base and quote are what stands around the first '/', or the whole name and nothing; they determine the name. */
  lemma NameFromParts(p: Pair)
    ensures '/' !in p.name.text ==> BaseOf(p) == p.name.text && QuoteOf(p) == ""
    ensures '/' in p.name.text ==> p.name.text == BaseOf(p) + "/" + QuoteOf(p) && '/' !in BaseOf(p)
    ensures Splittable(p.name.text) ==> BaseOf(p) != "" && QuoteOf(p) != ""
  {
    SplitNameIff(p.name.text);
  }

  // ---------------------------------------------------------------------------
  // Validation.

  datatype PairError = BadFormat | NoDecimals | NoName | BadMin | BadMax | MinAboveMax | NoFeed | Exists | NotFound

  /** validatePair. */
  function Validate(p: Pair): Option<PairError>
  {
    if p.name.text == "" then Some(NoName)
    else if SplitName(p.name.text) == None then Some(BadFormat)
    else if p.minAmount == 0 then Some(BadMin)
    else if p.maxAmount == 0 then Some(BadMax)
    else if p.minAmount > p.maxAmount then Some(MinAboveMax)
    else if p.priceFeed == "" then Some(NoFeed)
    else None
  }

  ghost predicate Sound(p: Pair)
  {
    0 < p.minAmount <= p.maxAmount && Splittable(p.name.text) && p.priceFeed != ""
  }

  /** Validation accepts exactly the sound pairs. */
  lemma ValidateIff(p: Pair)
    ensures Validate(p) == None <==> Sound(p)
  {
    SplitNameIff(p.name.text);
  }

  /** resolveDecimals: both sides get their decimals; `decimals` is the number in the indexer's metadata, if any. */
  function Resolve(p: Pair, decimals: string -> Option<i64>): Result<Pair, PairError>
  {
    var parts := SplitName(p.name.text);
    if parts == None then Err(BadFormat)
    else
      var b, q := DecimalsOf(parts.value.0, decimals), DecimalsOf(parts.value.1, decimals);
      if b == None || q == None then Err(NoDecimals)
      else Ok(p.(baseDecimals := b.value, quoteDecimals := q.value))
  }

  /** assetDecimals: BTC has eight; an asset needs metadata that is not negative. */
  function DecimalsOf(side: string, decimals: string -> Option<i64>): Option<i64>
  {
    if side == "BTC" then Some(8)
    else if decimals(side).Some? && decimals(side).value < 0 then None
    else decimals(side)
  }

  /** The decimals of one side of a pair are known: it is BTC, or the indexer has a number that is not negative. */
  predicate Known(side: string, decimals: string -> Option<i64>)
  {
    side == "BTC" || (decimals(side).Some? && decimals(side).value >= 0)
  }

  /** Resolving fills in the decimals of the pair's own base and quote, eight for BTC, and changes nothing else. */
  lemma ResolveIff(p: Pair, decimals: string -> Option<i64>)
    ensures var b, q, r := BaseOf(p), QuoteOf(p), Resolve(p, decimals);
            && (r.Ok? <==> Splittable(p.name.text) && Known(b, decimals) && Known(q, decimals))
            && (r.Ok? ==>
                  r.value == p.(baseDecimals := if b == "BTC" then 8 else decimals(b).value,
                                quoteDecimals := if q == "BTC" then 8 else decimals(q).value))
            && (r.Ok? ==> r.value.baseDecimals >= 0 && r.value.quoteDecimals >= 0)
  {
    SplitNameIff(p.name.text);
  }

  // ---------------------------------------------------------------------------
  // The table.

  datatype Row = Row(pair: PairName, minAmount: i64, maxAmount: i64, baseDecimals: i64, quoteDecimals: i64,
                     priceFeed: string, invertPrice: i64)

  function ToRow(p: Pair): Row
  {
    Row(p.name, WrapI64(p.minAmount), WrapI64(p.maxAmount), p.baseDecimals, p.quoteDecimals, p.priceFeed,
        if p.invertPrice then 1 else 0)
  }

  function ToDomain(r: Row): Pair
  {
    Pair(r.pair, ToU64(r.minAmount), ToU64(r.maxAmount), r.baseDecimals, r.quoteDecimals, r.priceFeed,
         r.invertPrice != 0)
  }

  /** Storing a pair loses nothing: each signed column holds its own uint64, up to 2^64. */
  lemma RowRoundTrip(p: Pair)
    ensures ToDomain(ToRow(p)) == p
    ensures var r := ToRow(p);
            r.pair == p.name && p.minAmount - r.minAmount in {0, TWO64} && p.maxAmount - r.maxAmount in {0, TWO64}
  {
  }

  type Table = map<PairName, Row>

  function At(t: Table, n: PairName): Option<Row> { if n in t then Some(t[n]) else None }

  /** Every row sits under its own primary key. */
  ghost predicate Keyed(t: Table)
  {
    forall n | n in t :: t[n].pair == n
  }

  /** Every stored pair has passed validation, and its decimals are not negative. */
  ghost predicate SoundTable(t: Table)
  {
    && Keyed(t)
    && forall n | n in t ::
         var p := ToDomain(t[n]);
         Sound(p) && p.baseDecimals >= 0 && p.quoteDecimals >= 0
  }

  /** The stored pairs in some order, each once. */
  ghost predicate IsListing(t: Table, pairs: seq<Pair>)
  {
    && (forall i, j | 0 <= i < j < |pairs| :: pairs[i].name != pairs[j].name)
    && (forall i | 0 <= i < |pairs| :: pairs[i].name in t && pairs[i] == ToDomain(t[pairs[i].name]))
    && (forall n | n in t :: ToDomain(t[n]) in pairs)
  }

  class PairRepository {
    var rows: Table

    ghost predicate Valid()
      reads this
    {
      Keyed(rows)
    }

    constructor ()
      ensures Valid() && rows == map[]
    {
      rows := map[];
    }

    method Add(p: Pair) returns (e: Option<PairError>)
      requires Valid()
      modifies this
      ensures Valid()
      ensures e == if p.name in old(rows) then Some(Exists) else None
      ensures rows == if e == None then old(rows)[p.name := ToRow(p)] else old(rows)
    {
      if p.name in rows {
        return Some(Exists);
      }
      rows := rows[p.name := ToRow(p)];
      e := None;
    }

    method Update(p: Pair) returns (e: Option<PairError>)
      requires Valid()
      modifies this
      ensures Valid()
      ensures e == if p.name in old(rows) then None else Some(NotFound)
      ensures rows == if e == None then old(rows)[p.name := ToRow(p)] else old(rows)
    {
      if p.name !in rows {
        return Some(NotFound);
      }
      rows := rows[p.name := ToRow(p)];
      e := None;
    }

    method Remove(name: PairName)
      requires Valid()
      modifies this
      ensures Valid() && rows == old(rows) - {name}
    {
      rows := rows - {name};
    }

    /** The stored pairs, in an arbitrary order. */
    method List() returns (pairs: seq<Pair>)
      requires Valid()
      ensures IsListing(rows, pairs)
    {
      pairs := [];
      var todo := rows.Keys;
      while todo != {}
        invariant todo <= rows.Keys
        invariant forall i, j | 0 <= i < j < |pairs| :: pairs[i].name != pairs[j].name
        invariant forall i | 0 <= i < |pairs| :: pairs[i].name in rows && pairs[i] == ToDomain(rows[pairs[i].name])
        invariant forall i | 0 <= i < |pairs| :: pairs[i].name !in todo
        invariant forall n | n in rows && n !in todo :: ToDomain(rows[n]) in pairs
        decreases todo
      {
        var n :| n in todo;
        pairs := pairs + [ToDomain(rows[n])];
        todo := todo - {n};
      }
    }
  }

  // ---------------------------------------------------------------------------
  // The service.

  datatype Request = AddPair(pair: Pair) | UpdatePair(pair: Pair) | RemovePair(name: PairName)

  /** What a request does to the table; `decimals` is the indexer at the time. */
  function After(t: Table, r: Request, decimals: string -> Option<i64>): Table
  {
    match r
    case RemovePair(name) => if name.text == "" then t else t - {name}
    case _ =>
      var p := Resolve(r.pair, decimals);
      if p.Err? || Validate(p.value).Some? || (r.AddPair? <==> r.pair.name in t) then t
      else t[r.pair.name := ToRow(p.value)]
  }

  /** The pair resolves and the result validates. */
  ghost predicate Admissible(p: Pair, decimals: string -> Option<i64>)
  {
    Sound(p) && Known(BaseOf(p), decimals) && Known(QuoteOf(p), decimals)
  }

  lemma AdmissibleIff(p: Pair, decimals: string -> Option<i64>)
    ensures Admissible(p, decimals) <==> Resolve(p, decimals).Ok? && Validate(Resolve(p, decimals).value) == None
  {
    ResolveIff(p, decimals);
    if Resolve(p, decimals).Ok? {
      ValidateIff(Resolve(p, decimals).value);
    }
  }

  /**
   * What each request does to the rows. Every other name keeps its row or its absence. Removing a
   * nonempty name leaves no row there. Adding a new admissible pair, or updating an existing one,
   * stores it with its own sides' decimals; otherwise the name's row stays as it was.
   */
  lemma RequestEffect(t: Table, r: Request, decimals: string -> Option<i64>)
    ensures var own := if r.RemovePair? then r.name else r.pair.name;
            forall n | n != own :: At(After(t, r, decimals), n) == At(t, n)
    ensures r.RemovePair? ==> At(After(t, r, decimals), r.name) == if r.name.text == "" then At(t, r.name) else None
    ensures !r.RemovePair? ==>
              var row, p := At(After(t, r, decimals), r.pair.name), r.pair;
              if Admissible(p, decimals) && (r.AddPair? <==> p.name !in t) then
                row.Some? && ToDomain(row.value)
                             == p.(baseDecimals := if BaseOf(p) == "BTC" then 8 else decimals(BaseOf(p)).value,
                                   quoteDecimals := if QuoteOf(p) == "BTC" then 8 else decimals(QuoteOf(p)).value)
              else row == At(t, p.name)
  {
    if !r.RemovePair? {
      AdmissibleIff(r.pair, decimals);
      ResolveIff(r.pair, decimals);
      if Resolve(r.pair, decimals).Ok? {
        RowRoundTrip(Resolve(r.pair, decimals).value);
      }
    }
  }

  /** TakerService, as far as pairs go. */
  class PairService {
    const repo: PairRepository

    constructor (repo: PairRepository)
      ensures this.repo == repo
    {
      this.repo := repo;
    }

    method AddPair(pair: Pair, decimals: string -> Option<i64>) returns (e: Option<PairError>)
      requires repo.Valid()
      modifies repo
      ensures repo.Valid() && repo.rows == After(old(repo.rows), Request.AddPair(pair), decimals)
      ensures e == None <==> Admissible(pair, decimals) && pair.name !in old(repo.rows)
      ensures e == Some(Exists) <==> Admissible(pair, decimals) && pair.name in old(repo.rows)
      ensures e == Some(BadFormat) <==> !Splittable(pair.name.text)
    {
      AdmissibleIff(pair, decimals);
      ResolveIff(pair, decimals);
      SplitNameIff(pair.name.text);
      var resolved := Resolve(pair, decimals);
      if resolved.Err? {
        return Some(resolved.error);
      }
      e := Validate(resolved.value);
      if e.Some? {
        return;
      }
      e := repo.Add(resolved.value);
    }

    method UpdatePair(pair: Pair, decimals: string -> Option<i64>) returns (e: Option<PairError>)
      requires repo.Valid()
      modifies repo
      ensures repo.Valid() && repo.rows == After(old(repo.rows), Request.UpdatePair(pair), decimals)
      ensures e == None <==> Admissible(pair, decimals) && pair.name in old(repo.rows)
      ensures e == Some(NotFound) <==> Admissible(pair, decimals) && pair.name !in old(repo.rows)
      ensures e == Some(BadFormat) <==> !Splittable(pair.name.text)
    {
      AdmissibleIff(pair, decimals);
      ResolveIff(pair, decimals);
      SplitNameIff(pair.name.text);
      var resolved := Resolve(pair, decimals);
      if resolved.Err? {
        return Some(resolved.error);
      }
      e := Validate(resolved.value);
      if e.Some? {
        return;
      }
      e := repo.Update(resolved.value);
    }

    method RemovePair(name: PairName) returns (e: Option<PairError>)
      requires repo.Valid()
      modifies repo
      ensures repo.Valid() && repo.rows == After(old(repo.rows), Request.RemovePair(name), _ => None)
      ensures e == if name.text == "" then Some(NoName) else None
    {
      if name.text == "" {
        return Some(NoName);
      }
      repo.Remove(name);
      e := None;
    }
  }

  /** The table after a run of requests, each with the indexer of its time. */
  function Replay(rs: seq<(Request, string -> Option<i64>)>): Table
  {
    if rs == [] then map[]
    else After(Replay(rs[..|rs| - 1]), rs[|rs| - 1].0, rs[|rs| - 1].1)
  }

  lemma AfterKeepsSound(t: Table, r: Request, decimals: string -> Option<i64>)
    requires SoundTable(t)
    ensures SoundTable(After(t, r, decimals))
  {
    if !r.RemovePair? {
      var p := Resolve(r.pair, decimals);
      if p.Ok? {
        RowRoundTrip(p.value);
        ValidateIff(p.value);
        ResolveIff(r.pair, decimals);
      }
    }
  }

  /** Over every run of requests, every stored pair keeps 0 < min <= max, a splittable name, a feed and its decimals. */
  lemma {:induction false} StoreStaysSound(rs: seq<(Request, string -> Option<i64>)>)
    ensures SoundTable(Replay(rs))
  {
    if rs != [] {
      StoreStaysSound(rs[..|rs| - 1]);
      AfterKeepsSound(Replay(rs[..|rs| - 1]), rs[|rs| - 1].0, rs[|rs| - 1].1);
    }
  }

  // ---------------------------------------------------------------------------
  // Lookup.

  predicate Matches(p: Pair, deposit: string, want: string)
  {
    BaseOf(p) == deposit && QuoteOf(p) == want
  }

  /** findMatchingPair: the first match in list order. */
  method FindMatchingPair(pairs: seq<Pair>, deposit: string, want: string) returns (r: Option<Pair>)
    ensures r == FirstMatch(pairs, deposit, want)
  {
    for i := 0 to |pairs|
      invariant FirstMatch(pairs, deposit, want) == FirstMatch(pairs[i..], deposit, want)
    {
      assert pairs[i..][1..] == pairs[i + 1..];
      if BaseOf(pairs[i]) != deposit {
        continue;
      }
      if QuoteOf(pairs[i]) != want {
        continue;
      }
      return Some(pairs[i]);
    }
    r := None;
  }

  function FirstMatch(pairs: seq<Pair>, deposit: string, want: string): (r: Option<Pair>)
    ensures r.Some? ==> r.value in pairs && Matches(r.value, deposit, want)
    ensures r == None ==> forall i | 0 <= i < |pairs| :: !Matches(pairs[i], deposit, want)
  {
    if pairs == [] then None
    else if Matches(pairs[0], deposit, want) then Some(pairs[0])
    else FirstMatch(pairs[1..], deposit, want)
  }

  /** The pair at a position has the offer's deposit as base and its want as quote, and none before it does. */
  ghost predicate FirstAt(pairs: seq<Pair>, deposit: string, want: string, k: nat)
  {
    && k < |pairs| && BaseOf(pairs[k]) == deposit && QuoteOf(pairs[k]) == want
    && forall j | 0 <= j < k :: BaseOf(pairs[j]) != deposit || QuoteOf(pairs[j]) != want
  }

  /** The lookup returns the pair at the first such position, and nothing iff there is none. */
  lemma {:induction false} FirstMatchIff(pairs: seq<Pair>, deposit: string, want: string, p: Pair)
    ensures FirstMatch(pairs, deposit, want) == Some(p)
            <==> exists k: nat :: FirstAt(pairs, deposit, want, k) && pairs[k] == p
  {
    if pairs != [] {
      var rest := pairs[1..];
      FirstMatchIff(rest, deposit, want, p);
      if Matches(pairs[0], deposit, want) {
        assert FirstAt(pairs, deposit, want, 0);
      } else {
        if k: nat :| FirstAt(rest, deposit, want, k) && rest[k] == p {
          assert forall j | 0 < j < k + 1 :: pairs[j] == rest[j - 1];
          assert FirstAt(pairs, deposit, want, k + 1) && pairs[k + 1] == p;
        }
        if k: nat :| FirstAt(pairs, deposit, want, k) && pairs[k] == p {
          assert forall j | 0 <= j < k - 1 :: rest[j] == pairs[j + 1];
          assert FirstAt(rest, deposit, want, k - 1) && rest[k - 1] == p;
        }
      }
    }
  }

  /** Two stored pairs that match the same offer are the same pair. */
  lemma AtMostOneMatch(t: Table, a: PairName, b: PairName, deposit: string, want: string)
    requires SoundTable(t) && a in t && b in t
    requires Matches(ToDomain(t[a]), deposit, want) && Matches(ToDomain(t[b]), deposit, want)
    ensures a == b
  {
    NameFromParts(ToDomain(t[a]));
    NameFromParts(ToDomain(t[b]));
  }

  /** What one listing matches, every listing matches. */
  lemma MatchInEveryListing(t: Table, xs: seq<Pair>, ys: seq<Pair>, deposit: string, want: string)
    requires IsListing(t, xs) && IsListing(t, ys) && FirstMatch(xs, deposit, want).Some?
    ensures FirstMatch(ys, deposit, want).Some?
  {
    var x := FirstMatch(xs, deposit, want).value;
    assert ToDomain(t[x.name]) in ys;
  }

  /** The matched pair does not depend on the order in which the store lists its pairs. */
  lemma MatchIgnoresOrder(t: Table, xs: seq<Pair>, ys: seq<Pair>, deposit: string, want: string)
    requires SoundTable(t) && IsListing(t, xs) && IsListing(t, ys)
    ensures FirstMatch(xs, deposit, want) == FirstMatch(ys, deposit, want)
  {
    var x, y := FirstMatch(xs, deposit, want), FirstMatch(ys, deposit, want);
    if x.Some? {
      MatchInEveryListing(t, xs, ys, deposit, want);
      AtMostOneMatch(t, x.value.name, y.value.name, deposit, want);
    } else if y.Some? {
      MatchInEveryListing(t, ys, xs, deposit, want);
    }
  }

  /**
   * A BTC want is looked up as the empty quote, so no stored pair ever matches it, although the
   * pair format is documented to allow "BTC" as a quote.
   */
  lemma BtcWantNeverMatches(t: Table, xs: seq<Pair>, deposit: string)
    requires SoundTable(t) && IsListing(t, xs)
    ensures FirstMatch(xs, deposit, "") == None
  {
    forall i | 0 <= i < |xs| ensures !Matches(xs[i], deposit, "") {
      NameFromParts(xs[i]);
    }
  }
}

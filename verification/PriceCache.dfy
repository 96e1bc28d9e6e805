/** priceCache of pkg/banco/price.go. */
module PriceCache {
  import opened Base

  // ---------------------------------------------------------------------------
  // Keys.

  /** unicode.IsSpace. */
  predicate IsSpace(c: char)
  {
    || '\t' <= c <= '\r' || c == ' ' || c == '\U{85}' || c == '\U{A0}' || c == '\U{1680}'
    || '\U{2000}' <= c <= '\U{200A}' || c == '\U{2028}' || c == '\U{2029}' || c == '\U{202F}'
    || c == '\U{205F}' || c == '\U{3000}'
  }

  function TrimLeft(s: string): string
  {
    if s != [] && IsSpace(s[0]) then TrimLeft(s[1..]) else s
  }

  function TrimRight(s: string): string
  {
    if s != [] && IsSpace(s[|s| - 1]) then TrimRight(s[..|s| - 1]) else s
  }

  /** strings.TrimSpace. */
  function Trim(s: string): string { TrimRight(TrimLeft(s)) }

  /** A cache key: a trimmed feed URL. */
  datatype Key = Key(text: string)

  function KeyOf(feedUrl: string): Key { Key(Trim(feedUrl)) }

  predicate Blank(s: string) { forall i | 0 <= i < |s| :: IsSpace(s[i]) }

  lemma {:induction false} TrimLeftPadding(pad: string, s: string)
    requires Blank(pad)
    ensures TrimLeft(pad + s) == TrimLeft(s)
  {
    if pad == [] {
      assert pad + s == s;
    } else {
      assert (pad + s)[1..] == pad[1..] + s;
      TrimLeftPadding(pad[1..], s);
    }
  }

  lemma {:induction false} TrimRightPadding(s: string, pad: string)
    requires Blank(pad)
    ensures TrimRight(s + pad) == TrimRight(s)
  {
    if pad == [] {
      assert s + pad == s;
    } else {
      assert (s + pad)[..|s + pad| - 1] == s + pad[..|pad| - 1];
      TrimRightPadding(s, pad[..|pad| - 1]);
    }
  }

  lemma {:induction false} TrimLeftSplit(s: string, pad: string)
    requires Blank(pad)
    ensures TrimRight(TrimLeft(s + pad)) == TrimRight(TrimLeft(s))
  {
    if s == [] {
      assert s + pad == pad && pad == pad + [];
      TrimLeftPadding(pad, []);
    } else if IsSpace(s[0]) {
      assert (s + pad)[1..] == s[1..] + pad;
      TrimLeftSplit(s[1..], pad);
    } else {
      TrimRightPadding(s, pad);
    }
  }

  /** White space around a URL does not change its trimmed form. */
  lemma PaddedKey(left: string, url: string, right: string)
    requires Blank(left) && Blank(right)
    ensures Trim(left + url + right) == Trim(url)
  {
    TrimLeftSplit(left + url, right);
    TrimLeftPadding(left, url);
  }

  /** The white space at the front of a string, and what follows it. */
  lemma {:induction false} TrimLeftMeaning(s: string) returns (left: string)
    ensures Blank(left) && s == left + TrimLeft(s)
    ensures TrimLeft(s) != [] ==> !IsSpace(TrimLeft(s)[0])
  {
    left := [];
    if s != [] && IsSpace(s[0]) {
      var rest := TrimLeftMeaning(s[1..]);
      left := [s[0]] + rest;
    }
  }

  lemma {:induction false} TrimRightMeaning(s: string) returns (right: string)
    ensures Blank(right) && s == TrimRight(s) + right
    ensures TrimRight(s) != [] ==> !IsSpace(TrimRight(s)[|TrimRight(s)| - 1])
  {
    right := [];
    if s != [] && IsSpace(s[|s| - 1]) {
      var rest := TrimRightMeaning(s[..|s| - 1]);
      right := rest + [s[|s| - 1]];
    }
  }

  /** Nothing, or a string with no white space at either end. */
  predicate Tight(s: string) { s == [] || (!IsSpace(s[0]) && !IsSpace(s[|s| - 1])) }

  /** Trimming takes white space off both ends, all of it, and nothing else. */
  lemma TrimMeaning(s: string) returns (left: string, right: string)
    ensures Blank(left) && Blank(right) && s == left + Trim(s) + right && Tight(Trim(s))
  {
    left := TrimLeftMeaning(s);
    right := TrimRightMeaning(TrimLeft(s));
  }

  /** Two URLs have the same text up to surrounding white space. */
  ghost predicate SameFeed(a: string, b: string)
  {
    exists core: string :: Padded(a, core) && Padded(b, core)
  }

  ghost predicate Padded(s: string, core: string)
  {
    exists left, right :: Blank(left) && Blank(right) && s == left + core + right
  }

  /** Feed URLs share a cache entry exactly when they differ only in surrounding white space. */
  lemma SameKeyIff(a: string, b: string)
    ensures KeyOf(a) == KeyOf(b) <==> SameFeed(a, b)
  {
    if KeyOf(a) == KeyOf(b) {
      var la, ra := TrimMeaning(a);
      var lb, rb := TrimMeaning(b);
      assert Padded(a, Trim(a)) && Padded(b, Trim(a));
    }
    if SameFeed(a, b) {
      var core: string :| Padded(a, core) && Padded(b, core);
      var la, ra :| Blank(la) && Blank(ra) && a == la + core + ra;
      var lb, rb :| Blank(lb) && Blank(rb) && b == lb + core + rb;
      PaddedKey(la, core, ra);
      PaddedKey(lb, core, rb);
    }
  }

  // ---------------------------------------------------------------------------
  // One call at a time.

  datatype Entry = Entry(price: real, fetchedAt: int)

  /** A price, a price with a "stale" error, or an error alone (price 0). */
  datatype Quote = Fresh(price: real) | Stale(price: real) | Unavailable

  function At(entries: map<Key, Entry>, key: Key): Option<Entry>
  {
    if key in entries then Some(entries[key]) else None
  }

  predicate IsFresh(cached: Option<Entry>, now: int, ttl: int)
  {
    cached.Some? && now - cached.value.fetchedAt < ttl
  }

  /** The answer of a call that read `cached` and, if it had to fetch, got `fetched`. */
  function Answer(cached: Option<Entry>, now: int, ttl: int, fetched: Option<real>): Quote
  {
    if IsFresh(cached, now, ttl) then Fresh(cached.value.price)
    else if fetched.Some? then Fresh(fetched.value)
    else if cached.Some? then Stale(cached.value.price)
    else Unavailable
  }

  /** The cache after such a call. */
  function Refreshed(entries: map<Key, Entry>, key: Key, now: int, ttl: int, fetched: Option<real>): map<Key, Entry>
  {
    if !IsFresh(At(entries, key), now, ttl) && fetched.Some? then entries[key := Entry(fetched.value, now)] else entries
  }

  /**
   * What a call does, case by case. An entry younger than the TTL answers and nothing changes. Without
   * one, a successful fetch answers and becomes the key's entry; a failed one changes nothing, and
   * answers with the old entry's price as stale, or not at all.
   */
  lemma CallMeaning(entries: map<Key, Entry>, key: Key, now: int, ttl: int, fetched: Option<real>)
    ensures var q, after := Answer(At(entries, key), now, ttl, fetched), Refreshed(entries, key, now, ttl, fetched);
            var young := key in entries && now < entries[key].fetchedAt + ttl;
            && (young ==> q == Fresh(entries[key].price) && after == entries)
            && (!young && fetched.Some? ==>
                  q == Fresh(fetched.value) && after == entries[key := Entry(fetched.value, now)])
            && (!young && fetched == None ==>
                  q == (if key in entries then Stale(entries[key].price) else Unavailable) && after == entries)
  {
  }

  /**
   * Feeds do not mix: between URLs that differ in more than surrounding white space, a call for one
   * leaves the other's entry alone, so the other's next call answers as if the first had not happened.
   */
  lemma FeedsApart(entries: map<Key, Entry>, a: string, b: string, now: int, ttl: int, fetched: Option<real>)
    requires !SameFeed(a, b)
    ensures At(Refreshed(entries, KeyOf(a), now, ttl, fetched), KeyOf(b)) == At(entries, KeyOf(b))
    ensures forall later: int, got: Option<real> ::
              var after := Refreshed(entries, KeyOf(a), now, ttl, fetched);
              Answer(At(after, KeyOf(b)), later, ttl, got) == Answer(At(entries, KeyOf(b)), later, ttl, got)
  {
    SameKeyIff(a, b);
  }

  /** One feed's entry serves its own padded URLs: a price fetched under one answers the others while it is young. */
  lemma PaddedFeedHits(entries: map<Key, Entry>, a: string, b: string, now: int, later: int, ttl: int, price: real)
    requires SameFeed(a, b) && !IsFresh(At(entries, KeyOf(a)), now, ttl) && later < now + ttl
    ensures var after := Refreshed(entries, KeyOf(a), now, ttl, Some(price));
            forall got: Option<real> :: Answer(At(after, KeyOf(b)), later, ttl, got) == Fresh(price)
  {
    SameKeyIff(a, b);
  }

  class Cache {
    var entries: map<Key, Entry>
    const ttl: int

    constructor (ttl: int)
      ensures entries == map[] && this.ttl == ttl
    {
      entries := map[];
      this.ttl := ttl;
    }

    /**
     * priceCache.get run without interruption; `feed` is the price feed, None its failure.
     * Only a successful fetch changes the cache, and only at the trimmed key.
     */
    method Get(feedUrl: string, now: int, feed: Key -> Option<real>) returns (q: Quote)
      modifies this
      ensures var key := KeyOf(feedUrl);
              var cached := At(old(entries), key);
              && q == Answer(cached, now, ttl, feed(key))
              && entries == Refreshed(old(entries), key, now, ttl, feed(key))
    {
      var key := KeyOf(feedUrl);
      var cached := At(entries, key);
      if cached.Some? && now - cached.value.fetchedAt < ttl {
        return Fresh(cached.value.price);
      }
      var price := feed(key);
      if price == None {
        if cached.Some? {
          return Stale(cached.value.price);
        }
        return Unavailable;
      }
      entries := entries[key := Entry(price.value, now)];
      q := Fresh(price.value);
    }
  }
}

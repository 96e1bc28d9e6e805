/** Concurrent priceCache.get calls (pkg/banco/price.go): every lock section and fetch is a step. */
module PriceRace {
  import opened Base
  import opened PriceCache

  /** A successful fetch: its key, when it began and what it returned. */
  datatype Fetch = Fetch(key: Key, began: int, price: real)

  /** Where a call is; `now` is its clock reading, `cached` the entry it read. */
  datatype Call =
    | Called(key: Key, now: int)
    | HasRead(key: Key, now: int, cached: Option<Entry>)
    | Fetching(key: Key, now: int, cached: Option<Entry>, began: int)
    | Writing(key: Key, now: int, cached: Option<Entry>, price: real)
    | Done(key: Key, now: int, cached: Option<Entry>, quote: Quote)

  datatype State = State(clock: int, entries: map<Key, Entry>, calls: map<int, Call>, fetches: seq<Fetch>)

  datatype Label =
    | Tick(elapsed: nat)
    | Begin(id: int, feedUrl: string)
    | ReadEntry(id: int)
    | Hit(id: int)
    | StartFetch(id: int)
    | FetchOk(id: int, price: real)
    | FetchFails(id: int)
    | Write(id: int)

  function Initial(clock: int): State { State(clock, map[], map[], []) }

  function Step(ttl: int, s: State, l: Label): Option<State>
  {
    if l.Tick? then Some(s.(clock := s.clock + l.elapsed))
    else if l.Begin? then
      if l.id in s.calls then None
      else Some(s.(calls := s.calls[l.id := Called(KeyOf(l.feedUrl), s.clock)]))
    else if l.id !in s.calls then None
    else
      var c := s.calls[l.id];
      match l
      case ReadEntry(id) =>
        if c.Called? then Some(s.(calls := s.calls[id := HasRead(c.key, c.now, At(s.entries, c.key))])) else None
      case Hit(id) =>
        if c.HasRead? && IsFresh(c.cached, c.now, ttl)
        then Some(s.(calls := s.calls[id := Done(c.key, c.now, c.cached, Fresh(c.cached.value.price))])) else None
      case StartFetch(id) =>
        if c.HasRead? && !IsFresh(c.cached, c.now, ttl)
        then Some(s.(calls := s.calls[id := Fetching(c.key, c.now, c.cached, s.clock)])) else None
      case FetchOk(id, price) =>
        if c.Fetching?
        then Some(s.(calls := s.calls[id := Writing(c.key, c.now, c.cached, price)],
                     fetches := s.fetches + [Fetch(c.key, c.began, price)])) else None
      case FetchFails(id) =>
        if c.Fetching?
        then Some(s.(calls := s.calls[id := Done(c.key, c.now, c.cached, Answer(c.cached, c.now, ttl, None))]))
        else None
      case Write(id) =>
        if c.Writing?
        then Some(s.(entries := s.entries[c.key := Entry(c.price, c.now)],
                     calls := s.calls[id := Done(c.key, c.now, c.cached, Fresh(c.price))])) else None
  }

  function Reach(ttl: int, clock: int, run: seq<Label>): Option<State>
  {
    if run == [] then Some(Initial(clock))
    else
      var s := Reach(ttl, clock, run[..|run| - 1]);
      if s == None then None else Step(ttl, s.value, run[|run| - 1])
  }

  /** Some successful fetch for the key that began no earlier than `since` returned the price. */
  ghost predicate Backed(fetches: seq<Fetch>, key: Key, price: real, since: int)
  {
    exists i | 0 <= i < |fetches| :: fetches[i].key == key && fetches[i].price == price && fetches[i].began >= since
  }

  ghost predicate EntryBacked(fetches: seq<Fetch>, key: Key, e: Option<Entry>)
  {
    e.Some? ==> Backed(fetches, key, e.value.price, e.value.fetchedAt)
  }

  /** What is known of a call at each of its stages. */
  ghost predicate CallInv(ttl: int, clock: int, fetches: seq<Fetch>, c: Call)
  {
    && c.now <= clock
    && (c.Called? || EntryBacked(fetches, c.key, c.cached))
    && (c.Fetching? ==> c.began >= c.now && !IsFresh(c.cached, c.now, ttl))
    && (c.Writing? ==> Backed(fetches, c.key, c.price, c.now))
    && (c.Done? && c.quote.Fresh? ==>
          || (IsFresh(c.cached, c.now, ttl) && c.quote.price == c.cached.value.price)
          || Backed(fetches, c.key, c.quote.price, c.now))
    && (c.Done? && c.quote.Stale? ==> c.cached.Some? && c.quote.price == c.cached.value.price)
    && (c.Done? && c.quote.Unavailable? ==> c.cached == None)
  }

  ghost predicate Inv(ttl: int, s: State)
  {
    && (forall k | k in s.entries :: EntryBacked(s.fetches, k, Some(s.entries[k])))
    && (forall id | id in s.calls :: CallInv(ttl, s.clock, s.fetches, s.calls[id]))
  }

  lemma BackedGrows(fetches: seq<Fetch>, f: Fetch, key: Key, price: real, since: int)
    requires Backed(fetches, key, price, since)
    ensures Backed(fetches + [f], key, price, since)
  {
    var i :| 0 <= i < |fetches| && fetches[i].key == key && fetches[i].price == price && fetches[i].began >= since;
    assert (fetches + [f])[i] == fetches[i];
  }

  /** A call keeps what is known of it while time passes and other fetches complete. */
  lemma CallInvGrows(ttl: int, clock: int, fetches: seq<Fetch>, f: Fetch, c: Call)
    requires CallInv(ttl, clock, fetches, c)
    ensures CallInv(ttl, clock, fetches + [f], c)
  {
    if !c.Called? && c.cached.Some? {
      BackedGrows(fetches, f, c.key, c.cached.value.price, c.cached.value.fetchedAt);
    }
    if c.Writing? {
      BackedGrows(fetches, f, c.key, c.price, c.now);
    }
    if c.Done? && c.quote.Fresh? && Backed(fetches, c.key, c.quote.price, c.now) {
      BackedGrows(fetches, f, c.key, c.quote.price, c.now);
    }
  }

  /** A completed fetch backs the price its call is about to write, and unbacks nothing. */
  lemma FetchOkKeepsInv(ttl: int, s: State, id: int, price: real, t: State)
    requires Inv(ttl, s) && Step(ttl, s, FetchOk(id, price)) == Some(t)
    ensures Inv(ttl, t)
  {
    var c := s.calls[id];
    var f := Fetch(c.key, c.began, price);
    forall k | k in t.entries ensures EntryBacked(t.fetches, k, Some(t.entries[k])) {
      BackedGrows(s.fetches, f, k, s.entries[k].price, s.entries[k].fetchedAt);
    }
    forall j | j in t.calls ensures CallInv(ttl, t.clock, t.fetches, t.calls[j]) {
      if j == id {
        CallInvGrows(ttl, s.clock, s.fetches, f, c);
        assert t.fetches[|s.fetches|] == f;
      } else {
        CallInvGrows(ttl, s.clock, s.fetches, f, s.calls[j]);
      }
    }
  }

  lemma WriteKeepsInv(ttl: int, s: State, id: int, t: State)
    requires Inv(ttl, s) && Step(ttl, s, Write(id)) == Some(t)
    ensures Inv(ttl, t)
  {
    var c := s.calls[id];
    assert CallInv(ttl, s.clock, s.fetches, c);
  }

  lemma StepKeepsInv(ttl: int, s: State, l: Label, t: State)
    requires Inv(ttl, s) && Step(ttl, s, l) == Some(t)
    ensures Inv(ttl, t)
  {
    if l.FetchOk? {
      FetchOkKeepsInv(ttl, s, l.id, l.price, t);
    } else if l.Write? {
      WriteKeepsInv(ttl, s, l.id, t);
    } else if !l.Tick? && !l.Begin? {
      assert CallInv(ttl, s.clock, s.fetches, s.calls[l.id]);
    }
  }

  lemma {:induction false} ReachInv(ttl: int, clock: int, run: seq<Label>)
    requires Reach(ttl, clock, run).Some?
    ensures Inv(ttl, Reach(ttl, clock, run).value)
  {
    if run != [] {
      var before := run[..|run| - 1];
      ReachInv(ttl, clock, before);
      StepKeepsInv(ttl, Reach(ttl, clock, before).value, run[|run| - 1], Reach(ttl, clock, run).value);
    }
  }

  /** A call in progress or done was begun with a URL that has its key. */
  lemma {:induction false} Begun(ttl: int, clock: int, run: seq<Label>, id: int) returns (k: nat)
    requires Reach(ttl, clock, run).Some? && id in Reach(ttl, clock, run).value.calls
    ensures k < |run| && run[k].Begin? && run[k].id == id
    ensures Reach(ttl, clock, run).value.calls[id].key == KeyOf(run[k].feedUrl)
  {
    var n := |run| - 1;
    var s := Reach(ttl, clock, run[..n]).value;
    if id in s.calls {
      k := Begun(ttl, clock, run[..n], id);
    } else {
      k := n;
    }
  }

  /**
   * Under any interleaving of calls, a price returned without an error came from a successful fetch
   * for the trimmed URL of the call that began less than the TTL before the call's clock reading, or
   * later. `k` is the call's own beginning in the run.
   */
  lemma FreshQuote(ttl: int, clock: int, run: seq<Label>, id: int) returns (i: nat, k: nat)
    requires Reach(ttl, clock, run).Some?
    requires var s := Reach(ttl, clock, run).value;
             id in s.calls && s.calls[id].Done? && s.calls[id].quote.Fresh?
    ensures var s := Reach(ttl, clock, run).value;
            var c := s.calls[id];
            && i < |s.fetches| && k < |run| && run[k].Begin? && run[k].id == id
            && s.fetches[i].key == KeyOf(run[k].feedUrl) && s.fetches[i].price == c.quote.price
            && (c.now - s.fetches[i].began < ttl || s.fetches[i].began >= c.now)
  {
    ReachInv(ttl, clock, run);
    var s := Reach(ttl, clock, run).value;
    var c := s.calls[id];
    k := Begun(ttl, clock, run, id);
    var since := if Backed(s.fetches, c.key, c.quote.price, c.now) then c.now else c.cached.value.fetchedAt;
    assert Backed(s.fetches, c.key, c.quote.price, since);
    i :| 0 <= i < |s.fetches| && s.fetches[i].key == c.key && s.fetches[i].price == c.quote.price
      && s.fetches[i].began >= since;
  }

  /** A stale price is that of the entry the call read, and a successful fetch for its key once returned it. */
  lemma StaleQuote(ttl: int, clock: int, run: seq<Label>, id: int)
    requires Reach(ttl, clock, run).Some?
    requires var s := Reach(ttl, clock, run).value;
             id in s.calls && s.calls[id].Done? && s.calls[id].quote.Stale?
    ensures var s := Reach(ttl, clock, run).value;
            var c := s.calls[id];
            && c.cached.Some? && c.quote.price == c.cached.value.price
            && Backed(s.fetches, c.key, c.quote.price, c.cached.value.fetchedAt)
  {
    ReachInv(ttl, clock, run);
  }

  /** Only the write after a successful fetch changes the cache, and only at the call's own key. */
  lemma OnlyWritesChangeCache(ttl: int, s: State, l: Label, t: State)
    requires Step(ttl, s, l) == Some(t) && t.entries != s.entries
    ensures l.Write? && l.id in s.calls && s.calls[l.id].Writing?
    ensures var c := s.calls[l.id]; t.entries == s.entries[c.key := Entry(c.price, c.now)]
  {
  }

  function Steps(ttl: int, s: State, ls: seq<Label>): Option<State>
    decreases |ls|
  {
    if ls == [] then Some(s)
    else
      var t := Step(ttl, s, ls[0]);
      if t == None then None else Steps(ttl, t.value, ls[1..])
  }

  /** The steps of one call that nothing interrupts. */
  function Uninterrupted(id: int, feedUrl: string, hit: bool, fetched: Option<real>): seq<Label>
  {
    [Begin(id, feedUrl), ReadEntry(id)]
    + if hit then [Hit(id)]
      else if fetched.Some? then [StartFetch(id), FetchOk(id, fetched.value), Write(id)]
      else [StartFetch(id), FetchFails(id)]
  }

  /** A call that nothing interrupts answers, and changes the cache, as Cache.Get does. */
  lemma UninterruptedGet(ttl: int, s: State, id: int, feedUrl: string, fetched: Option<real>)
    requires id !in s.calls
    ensures var key := KeyOf(feedUrl);
            var cached := At(s.entries, key);
            var hit := IsFresh(cached, s.clock, ttl);
            var t := Steps(ttl, s, Uninterrupted(id, feedUrl, hit, fetched));
            && t.Some? && id in t.value.calls
            && t.value.calls[id] == Done(key, s.clock, cached, Answer(cached, s.clock, ttl, fetched))
            && t.value.entries == Refreshed(s.entries, key, s.clock, ttl, fetched)
  {
    var key := KeyOf(feedUrl);
    var cached := At(s.entries, key);
    var hit := IsFresh(cached, s.clock, ttl);
    var ls := Uninterrupted(id, feedUrl, hit, fetched);
    var s1 := StepsOne(ttl, s, ls);
    var s2 := StepsOne(ttl, s1, ls[1..]);
    assert s2.calls[id] == HasRead(key, s.clock, cached);
    var s3 := StepsOne(ttl, s2, ls[1..][1..]);
    if !hit {
      var s4 := StepsOne(ttl, s3, ls[1..][1..][1..]);
      if fetched.Some? {
        var s5 := StepsOne(ttl, s4, ls[1..][1..][1..][1..]);
      }
    }
  }

  lemma StepsOne(ttl: int, s: State, ls: seq<Label>) returns (t: State)
    requires ls != [] && Step(ttl, s, ls[0]).Some?
    ensures Step(ttl, s, ls[0]) == Some(t) && Steps(ttl, s, ls) == Steps(ttl, t, ls[1..])
  {
    t := Step(ttl, s, ls[0]).value;
  }
}

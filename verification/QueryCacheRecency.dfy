/**
  Which entries the cache gives up, and when: in every run both bounds hold, the
  list is in order of last use, eviction drops only the least recently used and
  only as many as it must, and without bounds a question is answered exactly
  when the plain history answers it.
*/
module QueryCacheRecency {
  import opened Wrappers
  import opened QueryCache
  import opened QueryCacheHistory

  // ------------------------------------------------------------------- bounds

  /** Never more entries or bytes than configured; the bytes are those of the entries. */
  lemma {:induction false} BoundsHold(h: seq<Event>)
    ensures var c := After(h);
      && (InForce(h).maxEntries > 0 ==> |c.store| <= InForce(h).maxEntries)
      && (InForce(h).maxBytes > 0 ==> c.total <= InForce(h).maxBytes)
      && c.total == Sum(c.lru, c.store) && |c.store| == |c.lru| && forall k :: k in c.lru <==> k in c.store
  {
    hide After, InForce, Sum;
    AfterInv(h);
    CountKeys(After(h).lru, After(h).store);
  }

  // ------------------------------------------------------------------- eviction

  /** The first `n` entries of the list and the incoming one are too many or too big. */
  predicate Overfull(c: Cache, n: nat, incoming: nat, reserveSlot: bool)
    requires n <= |c.lru|
  {
    || (c.cfg.maxEntries > 0 && n + (if reserveSlot then 1 else 0) > c.cfg.maxEntries)
    || (c.cfg.maxBytes > 0 && Sum(c.lru[..n], c.store) + incoming > c.cfg.maxBytes)
  }

  lemma {:induction false} FullIs(c: Cache, incoming: nat, reserveSlot: bool)
    requires Linked(c)
    ensures TooMany(c, reserveSlot) || TooBig(c, incoming) <==> Overfull(c, |c.lru|, incoming, reserveSlot)
  {
    CountKeys(c.lru, c.store);
    assert c.lru[..|c.lru|] == c.lru;
  }

  lemma {:induction false} SameShort(c: Cache, d: Cache, n: nat, incoming: nat, reserveSlot: bool)
    requires d.cfg == c.cfg && d.lru <= c.lru && n <= |d.lru|
    requires forall k <- d.lru :: Size(c.store, k) == Size(d.store, k)
    ensures Overfull(c, n, incoming, reserveSlot) <==> Overfull(d, n, incoming, reserveSlot)
  {
    assert c.lru[..n] == d.lru[..n];
    forall k <- d.lru[..n] ensures Size(c.store, k) == Size(d.store, k) { assert k in d.lru; }
    SumSame(d.lru[..n], c.store, d.store);
  }

  /** Eviction stops at the longest most recent prefix that fits. */
  lemma {:induction false} EvictsNoMoreThanNeeded(c: Cache, incoming: nat, reserveSlot: bool)
    requires Linked(c)
    ensures var d := Evict(c, incoming, reserveSlot);
      && |d.lru| <= |c.lru| && d.lru == c.lru[..|d.lru|]
      && (|d.lru| < |c.lru| ==> Overfull(c, |d.lru| + 1, incoming, reserveSlot))
      && (d.lru != [] ==> !Overfull(c, |d.lru|, incoming, reserveSlot))
    decreases |c.lru|
  {
    hide Evict, Linked, Erase, TooMany, TooBig, Overfull, Sum;
    FullIs(c, incoming, reserveSlot);
    if c.lru == [] || (!TooMany(c, reserveSlot) && !TooBig(c, incoming)) {
      EvictStops(c, incoming, reserveSlot);
    } else {
      var b := Erase(c, c.lru[|c.lru| - 1]);
      EraseLast(c);
      EvictTurns(c, incoming, reserveSlot);
      EvictsNoMoreThanNeeded(b, incoming, reserveSlot);
      var n := |Evict(b, incoming, reserveSlot).lru|;
      assert b.lru[..n] == c.lru[..n];
      LinkedSizes(b, c);
      SameShort(c, b, n, incoming, reserveSlot);
      if n < |b.lru| { SameShort(c, b, n + 1, incoming, reserveSlot); }
    }
  }

  lemma {:induction false} LinkedSizes(b: Cache, c: Cache)
    requires Linked(b) && Part(b, c)
    ensures forall k <- b.lru :: Size(c.store, k) == Size(b.store, k)
  {
  }

  // ------------------------------------------------------------------- recency

  /** Event `e`, after the history `h`, uses the entry under `ck`: an accepted put, or a hit. */
  predicate Uses(h: seq<Event>, e: Event, ck: string) {
    || (e.Was? && CompositeKey(e.source, e.key) == ck && Accepts(On(InForce(h)), InForce(h), e.rows))
    || (e.Asked? && CompositeKey(e.source, e.key) == ck && Answer(After(h), e.source, e.key, e.at).Some?)
  }

  /** When the entry under `ck` was last used; -1 for never. */
  function LastUse(h: seq<Event>, ck: string): int {
    if h == [] then -1
    else if Uses(h[..|h| - 1], h[|h| - 1], ck) then |h| - 1
    else LastUse(h[..|h| - 1], ck)
  }

  lemma {:induction false} LastUseBefore(h: seq<Event>, ck: string)
    ensures LastUse(h, ck) < |h|
  {
    if h != [] { LastUseBefore(h[..|h| - 1], ck); }
  }

  /** Most recently used first. */
  ghost predicate ByLastUse(keys: seq<string>, h: seq<Event>) {
    forall i, j :: 0 <= i < j < |keys| ==> LastUse(h, keys[i]) > LastUse(h, keys[j])
  }

  lemma {:induction false} WithoutKeeps(keys: seq<string>, key: string, h: seq<Event>)
    requires ByLastUse(keys, h)
    ensures ByLastUse(Without(keys, key), h)
  {
    hide LastUse;
    if keys != [] {
      var rest := keys[1..];
      WithoutKeeps(rest, key, h);
      forall k <- Without(rest, key) ensures LastUse(h, keys[0]) > LastUse(h, k) {
        var j :| 0 <= j < |rest| && rest[j] == k;
        assert keys[j + 1] == k;
      }
    }
  }

  lemma {:induction false} PrefixKeeps(r: seq<string>, keys: seq<string>, h: seq<Event>)
    requires ByLastUse(keys, h) && r <= keys
    ensures ByLastUse(r, h)
  {
    hide LastUse;
  }

  /** An event that uses none of the keys leaves their order. */
  lemma {:induction false} Unused(keys: seq<string>, h: seq<Event>, e: Event)
    requires ByLastUse(keys, h) && forall k <- keys :: !Uses(h, e, k)
    ensures ByLastUse(keys, h + [e])
  {
    hide Uses;
    var h' := h + [e];
    assert h'[..|h|] == h;
    forall k <- keys ensures LastUse(h', k) == LastUse(h, k) { }
  }

  /** The key just used goes in front of others that are in order. */
  lemma {:induction false} InFront(ck: string, keys: seq<string>, h: seq<Event>, e: Event)
    requires ByLastUse(keys, h) && Uses(h, e, ck) && forall k <- keys :: !Uses(h, e, k)
    ensures ByLastUse([ck] + keys, h + [e])
  {
    hide Uses;
    var h' := h + [e];
    assert h'[..|h|] == h;
    Unused(keys, h, e);
    assert LastUse(h', ck) == |h|;
    forall k <- keys ensures LastUse(h', k) < |h| { LastUseBefore(h, k); }
  }

  lemma {:induction false} PutRecency(h: seq<Event>, e: Event)
    requires e.Was? && ByLastUse(After(h).lru, h)
    ensures ByLastUse(Put(After(h), e.source, e.key, e.rows, e.at).lru, h + [e])
  {
    hide ByLastUse, Without, Evict, Linked, Bounded, After, InForce, CompositeKey;
    AfterInv(h);
    var c, ck := After(h), CompositeKey(e.source, e.key);
    if !Accepts(c.enabled, c.cfg, e.rows) {
      Unused(c.lru, h, e);
    } else {
      var n := Entry(e.rows, e.rows.bytes, e.at + c.cfg.ttl);
      if ck in c.store {
        var r := Refresh(c, ck, n);
        WithoutKeeps(c.lru, ck, h);
        InFront(ck, Without(c.lru, ck), h, e);
        RefreshLinked(c, ck, n);
        EvictKeeps(r, 0, false);
        PrefixKeeps(Evict(r, 0, false).lru, r.lru, h + [e]);
      } else {
        var d := Evict(c, e.rows.bytes, true);
        EvictKeeps(c, e.rows.bytes, true);
        PrefixKeeps(d.lru, c.lru, h);
        NotListed(c, d, ck);
        InFront(ck, d.lru, h, e);
      }
    }
  }

  lemma {:induction false} NotListed(c: Cache, d: Cache, ck: string)
    requires Linked(c) && d.lru <= c.lru && ck !in c.store
    ensures ck !in d.lru
  {
    assert ck !in c.lru;
  }

  lemma {:induction false} GetRecency(h: seq<Event>, e: Event)
    requires e.Asked? && ByLastUse(After(h).lru, h)
    ensures ByLastUse(AfterGet(After(h), e.source, e.key, e.at).lru, h + [e])
  {
    hide ByLastUse, Without, After, InForce, CompositeKey;
    var c, ck := After(h), CompositeKey(e.source, e.key);
    if !c.enabled || !c.cfg.enabled || ck !in c.store {
      Unused(c.lru, h, e);
    } else {
      var rest := Without(c.lru, ck);
      WithoutKeeps(c.lru, ck, h);
      if c.store[ck].expire <= e.at { Unused(rest, h, e); } else { InFront(ck, rest, h, e); }
    }
  }

  lemma {:induction false} DropRecency(c: Cache, keys: seq<string>, prefix: string, h: seq<Event>)
    requires ByLastUse(c.lru, h)
    ensures ByLastUse(DropAll(c, keys, prefix).lru, h)
    decreases |keys|
  {
    hide ByLastUse, Without, HasPrefix;
    if keys != [] {
      if HasPrefix(keys[0], prefix) && keys[0] in c.store {
        WithoutKeeps(c.lru, keys[0], h);
        DropRecency(Erase(c, keys[0]), keys[1..], prefix, h);
      } else {
        DropRecency(c, keys[1..], prefix, h);
      }
    }
  }

  /** In every run the list is in order of last use, so what eviction drops from its end is the least recently used. */
  lemma {:induction false} ListIsByLastUse(h: seq<Event>)
    ensures ByLastUse(After(h).lru, h)
  {
    hide Put, AfterGet, DropAll, CompositeKey;
    if h != [] {
      var rest, e := h[..|h| - 1], h[|h| - 1];
      assert h == rest + [e];
      ListIsByLastUse(rest);
      match e
      case Configured(cfg) =>
      case Was(source, key, rows, at) => PutRecency(rest, e);
      case Asked(source, key, at) => GetRecency(rest, e);
      case Dropped(source) =>
        DropRecency(After(rest), After(rest).lru, CompositeKey(source, ""), rest);
        Unused(Invalidate(After(rest), source).lru, rest, e);
    }
  }

  // -------------------------------------------------------------- without bounds

  /** No configuration of the run has a bound, and no question was asked after `now`. */
  predicate Roomy(h: seq<Event>, now: int) {
    forall i :: 0 <= i < |h| ==>
      && (h[i].Configured? ==> h[i].cfg.maxEntries <= 0 && h[i].cfg.maxBytes <= 0)
      && (h[i].Asked? ==> h[i].at <= now)
  }

  lemma {:induction false} RoomyConfig(h: seq<Event>, now: int)
    requires Roomy(h, now)
    ensures InForce(h).maxEntries <= 0 && InForce(h).maxBytes <= 0
  {
    if h != [] && !h[|h| - 1].Configured? { RoomyConfig(h[..|h| - 1], now); }
  }

  lemma {:induction false} NothingEvicted(c: Cache, source: string, key: string, rows: Rows, now: int, k: string)
    requires c.cfg.maxEntries <= 0 && c.cfg.maxBytes <= 0 && k in c.store && k != CompositeKey(source, key)
    ensures k in Put(c, source, key, rows, now).store
  {
    hide Evict, CompositeKey, Without;
    var e := Entry(rows, rows.bytes, now + c.cfg.ttl);
    EvictStops(c, rows.bytes, true);
    EvictStops(Refresh(c, CompositeKey(source, key), e), 0, false);
  }

  lemma {:induction false} OthersStay(c: Cache, source: string, key: string, at: int, k: string)
    requires k in c.store && (k == CompositeKey(source, key) ==> at < c.store[k].expire)
    ensures k in AfterGet(c, source, key, at).store
  {
    hide CompositeKey, Without;
  }

  lemma {:induction false} LatestIsStored(h: seq<Event>, source: string, key: string, now: int)
    requires Apart(h, source) && Roomy(h, now)
    requires Latest(h, source, key).Some? && now < Latest(h, source, key).value.expire
    ensures CompositeKey(source, key) in After(h).store
  {
    hide Inv, CompositeKey, Put, AfterGet, Invalidate, HasPrefix, Accepts;
    var rest, e := h[..|h| - 1], h[|h| - 1];
    var c, ck := After(rest), CompositeKey(source, key);
    AfterInv(rest);
    if e.Was? { PutKeeps(c, e.source, e.key, e.rows, e.at); KeysApart(e.source, e.key, source, key); }
    if !(e.Was? && e.source == source && e.key == key && Accepts(On(InForce(rest)), InForce(rest), e.rows)) {
      LatestIsStored(rest, source, key, now);
      StoreIsLatest(rest, source, key);
      RoomyConfig(rest, now);
      match e
      case Was(s, k, rows, at) =>
        if CompositeKey(s, k) != ck { NothingEvicted(c, s, k, rows, at, ck); }
      case Asked(s, k, at) => OthersStay(c, s, k, at, ck);
      case Dropped(s) => InvalidateKeeps(c, s); KeyHasPrefix(s, source, key);
    }
  }

  /** Without bounds, and with questions in time order, a question is answered exactly when the plain history has an
      unexpired put for it, and with its rows. */
  lemma {:induction false} HitIffLatest(h: seq<Event>, source: string, key: string, now: int)
    requires Apart(h, source) && Roomy(h, now)
    ensures var latest := Latest(h, source, key);
      Answer(After(h), source, key, now) ==
        if latest.Some? && now < latest.value.expire then Some(latest.value.rows) else None
  {
    hide CompositeKey, Linked, Bounded, Latest, After, InForce;
    AfterInv(h);
    StoreIsLatest(h, source, key);
    var latest := Latest(h, source, key);
    if latest.Some? && now < latest.value.expire { LatestIsStored(h, source, key, now); }
  }
}

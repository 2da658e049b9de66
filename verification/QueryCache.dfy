/**
  The result cache: a map from composite keys to entries with an expiry, an LRU
  list and a byte total. The cache refines a plain history of what was put.
*/
module QueryCache {
  import opened Wrappers

  /** A result set, known here by an identity and its size estimate. */
  datatype Rows = Rows(id: int, bytes: nat)

  datatype Config = Config(enabled: bool, ttl: int, maxEntries: int, maxBytes: int)

  datatype Entry = Entry(rows: Rows, bytes: nat, expire: int)

  datatype Cache = Cache(cfg: Config, enabled: bool, store: map<string, Entry>, lru: seq<string>, total: nat)

  function CompositeKey(source: string, key: string): string { source + ['\0'] + key }

  // ----------------------------------------------------------- LRU bookkeeping

  function Without(keys: seq<string>, key: string): (r: seq<string>)
    ensures forall k :: k in r <==> k in keys && k != key
  {
    if keys == [] then []
    else if keys[0] == key then Without(keys[1..], key)
    else [keys[0]] + Without(keys[1..], key)
  }

  predicate NoDup(keys: seq<string>) { forall i, j :: 0 <= i < j < |keys| ==> keys[i] != keys[j] }

  function Size(store: map<string, Entry>, key: string): nat { if key in store then store[key].bytes else 0 }

  function Sum(keys: seq<string>, store: map<string, Entry>): nat {
    if keys == [] then 0 else Size(store, keys[0]) + Sum(keys[1..], store)
  }

  /** eraseLocked. */
  function Erase(c: Cache, key: string): Cache {
    c.(total := c.total - (if Size(c.store, key) <= c.total then Size(c.store, key) else c.total),
       lru := Without(c.lru, key), store := map k | k in c.store && k != key :: c.store[k])
  }

  predicate TooMany(c: Cache, reserveSlot: bool) {
    c.cfg.maxEntries > 0 && if reserveSlot then |c.store| >= c.cfg.maxEntries else |c.store| > c.cfg.maxEntries
  }

  predicate TooBig(c: Cache, incoming: nat) { c.cfg.maxBytes > 0 && c.total + incoming > c.cfg.maxBytes }

  /** evictLocked: drops from the back of the list while a bound is exceeded. */
  function Evict(c: Cache, incoming: nat, reserveSlot: bool): Cache
    decreases |c.lru|
  {
    if c.lru == [] || (!TooMany(c, reserveSlot) && !TooBig(c, incoming)) then c else
    var oldest := c.lru[|c.lru| - 1];
    if oldest !in c.store then Evict(c.(lru := c.lru[..|c.lru| - 1]), incoming, reserveSlot)
    else
      WithoutShrinks(c.lru, oldest);
      Evict(Erase(c, oldest), incoming, reserveSlot)
  }

  lemma WithoutShrinks(keys: seq<string>, key: string)
    requires key in keys
    ensures |Without(keys, key)| < |keys|
  {
    if keys[0] == key { WithoutNoLonger(keys[1..], key); } else { WithoutShrinks(keys[1..], key); }
  }

  lemma WithoutNoLonger(keys: seq<string>, key: string)
    ensures |Without(keys, key)| <= |keys|
  {
  }

  // --------------------------------------------------------------- operations

  predicate Accepts(enabled: bool, cfg: Config, rows: Rows) {
    enabled && cfg.enabled && cfg.ttl > 0 && (cfg.maxBytes > 0 ==> rows.bytes <= cfg.maxBytes)
  }

  function Configure(c: Cache, cfg: Config): Cache { Cache(cfg, cfg.enabled && cfg.ttl > 0, map[], [], 0) }

  /** What get returns. */
  function Answer(c: Cache, source: string, key: string, now: int): Option<Rows> {
    var ck := CompositeKey(source, key);
    if c.enabled && c.cfg.enabled && ck in c.store && c.store[ck].expire > now then Some(c.store[ck].rows) else None
  }

  /** What get leaves behind: an expired entry goes, a hit moves to the front. */
  function AfterGet(c: Cache, source: string, key: string, now: int): Cache {
    var ck := CompositeKey(source, key);
    if !c.enabled || !c.cfg.enabled || ck !in c.store then c
    else if c.store[ck].expire <= now then Erase(c, ck)
    else c.(lru := [ck] + Without(c.lru, ck))
  }

  function Refresh(c: Cache, ck: string, e: Entry): Cache {
    c.(total := c.total - (if Size(c.store, ck) <= c.total then Size(c.store, ck) else c.total) + e.bytes,
       store := c.store[ck := e], lru := [ck] + Without(c.lru, ck))
  }

  function Insert(c: Cache, ck: string, e: Entry): Cache {
    c.(lru := [ck] + c.lru, total := c.total + e.bytes, store := c.store[ck := e])
  }

  function Put(c: Cache, source: string, key: string, rows: Rows, now: int): Cache {
    if !Accepts(c.enabled, c.cfg, rows) then c else
    var ck := CompositeKey(source, key);
    var e := Entry(rows, rows.bytes, now + c.cfg.ttl);
    if ck in c.store then Evict(Refresh(c, ck, e), 0, false)
    else Insert(Evict(c, rows.bytes, true), ck, e)
  }

  predicate HasPrefix(s: string, prefix: string) { |s| >= |prefix| && s[..|prefix|] == prefix }

  function DropAll(c: Cache, keys: seq<string>, prefix: string): Cache
    decreases |keys|
  {
    if keys == [] then c
    else if HasPrefix(keys[0], prefix) && keys[0] in c.store then DropAll(Erase(c, keys[0]), keys[1..], prefix)
    else DropAll(c, keys[1..], prefix)
  }

  function Invalidate(c: Cache, source: string): Cache {
    if !c.enabled then c else DropAll(c, c.lru, CompositeKey(source, ""))
  }

  // ---------------------------------------------------------------- invariant

  ghost predicate Linked(c: Cache) {
    NoDup(c.lru) && (forall k :: k in c.lru <==> k in c.store) && c.total == Sum(c.lru, c.store)
  }

  predicate Bounded(c: Cache) { !TooMany(c, false) && !TooBig(c, 0) }

  ghost predicate Inv(c: Cache) { Linked(c) && Bounded(c) && (!c.enabled ==> c.store == map[]) }

  lemma {:induction false} SumSame(keys: seq<string>, a: map<string, Entry>, b: map<string, Entry>)
    requires forall k <- keys :: Size(a, k) == Size(b, k)
    ensures Sum(keys, a) == Sum(keys, b)
  {
    if keys != [] { SumSame(keys[1..], a, b); }
  }

  lemma {:induction false} WithoutNoDup(keys: seq<string>, key: string)
    requires NoDup(keys)
    ensures NoDup(Without(keys, key))
    ensures key !in keys ==> Without(keys, key) == keys
  {
    if keys != [] {
      WithoutNoDup(keys[1..], key);
      var rest := Without(keys[1..], key);
      forall j | 0 <= j < |rest| ensures rest[j] != keys[0] { assert rest[j] in keys[1..]; }
    }
  }

  lemma {:induction false} SumWithout(keys: seq<string>, key: string, store: map<string, Entry>)
    requires NoDup(keys) && key in keys
    ensures Sum(keys, store) == Size(store, key) + Sum(Without(keys, key), store)
  {
    if keys[0] == key {
      assert key !in keys[1..];
      WithoutNoDup(keys[1..], key);
    } else {
      SumWithout(keys[1..], key, store);
    }
  }

  /** The number of entries is the length of a list that holds each key once. */
  lemma {:induction false} CountKeys(keys: seq<string>, store: map<string, Entry>)
    requires NoDup(keys) && forall k :: k in keys <==> k in store
    ensures |store| == |keys|
  {
    if keys == [] {
      assert store == map[];
    } else {
      var rest := map k | k in store && k != keys[0] :: store[k];
      assert forall k :: k in keys[1..] <==> k in rest;
      CountKeys(keys[1..], rest);
      assert store.Keys == rest.Keys + {keys[0]};
    }
  }

  lemma {:induction false} EraseLinked(c: Cache, key: string)
    requires Linked(c) && key in c.store
    ensures Linked(Erase(c, key)) && Erase(c, key).total + c.store[key].bytes == c.total
    ensures |Erase(c, key).store| == |c.store| - 1
  {
    var d := Erase(c, key);
    WithoutNoDup(c.lru, key);
    SumWithout(c.lru, key, c.store);
    SumSame(d.lru, c.store, d.store);
    assert c.store.Keys == d.store.Keys + {key};
  }

  /** Every entry of `d` is an entry of `c`. */
  predicate Part(d: Cache, c: Cache) {
    d.cfg == c.cfg && d.enabled == c.enabled && forall k <- d.store :: k in c.store && c.store[k] == d.store[k]
  }

  lemma {:induction false} WithoutLast(keys: seq<string>)
    requires NoDup(keys) && keys != []
    ensures Without(keys, keys[|keys| - 1]) == keys[..|keys| - 1]
  {
    if |keys| > 1 {
      assert keys[1..][|keys| - 2] == keys[|keys| - 1];
      assert keys[1..][..|keys| - 2] == keys[1..|keys| - 1];
      WithoutLast(keys[1..]);
    }
  }

  lemma {:induction false} EvictTurns(c: Cache, incoming: nat, reserveSlot: bool)
    requires c.lru != [] && c.lru[|c.lru| - 1] in c.store && (TooMany(c, reserveSlot) || TooBig(c, incoming))
    ensures Evict(c, incoming, reserveSlot) == Evict(Erase(c, c.lru[|c.lru| - 1]), incoming, reserveSlot)
  {
    hide Erase, TooMany, TooBig, Without;
  }

  /** One turn of the eviction loop drops the last key of the list and nothing else. */
  lemma {:induction false} EraseLast(c: Cache)
    requires Linked(c) && c.lru != []
    ensures var oldest := c.lru[|c.lru| - 1];
      && oldest in c.store && Linked(Erase(c, oldest)) && Part(Erase(c, oldest), c)
      && Erase(c, oldest).lru == c.lru[..|c.lru| - 1]
  {
    var oldest := c.lru[|c.lru| - 1];
    assert oldest in c.lru;
    EraseLinked(c, oldest);
    hide Sum, Without;
    WithoutLast(c.lru);
  }

  lemma {:induction false} EvictStops(c: Cache, incoming: nat, reserveSlot: bool)
    requires c.lru == [] || (!TooMany(c, reserveSlot) && !TooBig(c, incoming))
    ensures Evict(c, incoming, reserveSlot) == c
  {
  }

  lemma {:induction false} EmptyIsEmpty(c: Cache)
    requires Linked(c) && c.lru == []
    ensures c.store == map[] && c.total == 0
  {
  }

  /** Eviction keeps a most-recent prefix of the list and leaves room. */
  lemma {:induction false} EvictKeeps(c: Cache, incoming: nat, reserveSlot: bool)
    requires Linked(c)
    ensures var d := Evict(c, incoming, reserveSlot);
      && Linked(d) && Part(d, c) && d.lru <= c.lru
      && (d.lru == [] || (!TooMany(d, reserveSlot) && !TooBig(d, incoming)))
      && (d.lru == [] ==> d.store == map[] && d.total == 0)
    decreases |c.lru|
  {
    hide Evict, Linked, Erase, TooMany, TooBig;
    if c.lru == [] || (!TooMany(c, reserveSlot) && !TooBig(c, incoming)) {
      EvictStops(c, incoming, reserveSlot);
      if c.lru == [] { EmptyIsEmpty(c); }
    } else {
      EraseLast(c);
      EvictTurns(c, incoming, reserveSlot);
      EvictKeeps(Erase(c, c.lru[|c.lru| - 1]), incoming, reserveSlot);
    }
  }

  /** With room for the front entry alone, eviction never reaches it. */
  lemma {:induction false} EvictSparesFront(c: Cache)
    requires Linked(c) && c.lru != []
    requires c.cfg.maxBytes > 0 ==> Size(c.store, c.lru[0]) <= c.cfg.maxBytes
    ensures Evict(c, 0, false).lru != [] && Evict(c, 0, false).lru[0] == c.lru[0]
    decreases |c.lru|
  {
    hide Sum, Size, Erase, Evict;
    if !TooMany(c, false) && !TooBig(c, 0) {
      EvictStops(c, 0, false);
    } else {
      if |c.lru| == 1 { OneFits(c); assert false; }
      var oldest := c.lru[|c.lru| - 1];
      EraseLast(c);
      EvictTurns(c, 0, false);
      EraseOther(c, oldest, c.lru[0]);
      EvictSparesFront(Erase(c, oldest));
    }
  }

  lemma {:induction false} EraseOther(c: Cache, key: string, other: string)
    requires key != other
    ensures Size(Erase(c, key).store, other) == Size(c.store, other)
  {
  }

  lemma {:induction false} OneFits(c: Cache)
    requires Linked(c) && |c.lru| == 1
    requires c.cfg.maxBytes > 0 ==> Size(c.store, c.lru[0]) <= c.cfg.maxBytes
    ensures !TooMany(c, false) && !TooBig(c, 0)
  {
    CountKeys(c.lru, c.store);
    assert Sum(c.lru[1..], c.store) == 0;
  }

  lemma {:induction false} RefreshLinked(c: Cache, ck: string, e: Entry)
    requires Linked(c) && ck in c.store
    ensures Linked(Refresh(c, ck, e))
  {
    hide Sum, NoDup;
    var d := Refresh(c, ck, e);
    WithoutNoDup(c.lru, ck);
    SumWithout(c.lru, ck, c.store);
    Fronted(Without(c.lru, ck), ck, c.store, d.store);
    assert forall k :: k in d.lru <==> k == ck || k in Without(c.lru, ck);
  }

  lemma {:induction false} Fronted(keys: seq<string>, key: string, store: map<string, Entry>, next: map<string, Entry>)
    requires NoDup(keys) && key !in keys && forall k <- keys :: Size(store, k) == Size(next, k)
    ensures NoDup([key] + keys) && Sum([key] + keys, next) == Size(next, key) + Sum(keys, store)
  {
    SumSame(keys, store, next);
    assert ([key] + keys)[1..] == keys;
  }

  lemma {:induction false} InsertLinked(c: Cache, ck: string, e: Entry)
    requires Linked(c) && ck !in c.store
    ensures Linked(Insert(c, ck, e)) && |Insert(c, ck, e).store| == |c.store| + 1
  {
    hide Sum, NoDup;
    var d := Insert(c, ck, e);
    Fronted(c.lru, ck, c.store, d.store);
    assert forall k :: k in d.lru <==> k == ck || k in c.lru;
    assert d.store.Keys == c.store.Keys + {ck};
  }

  /** An accepted put keeps every bound, stores its own entry and otherwise only drops entries. */
  lemma {:induction false} PutKeeps(c: Cache, source: string, key: string, rows: Rows, now: int)
    requires Inv(c)
    ensures var d, ck := Put(c, source, key, rows, now), CompositeKey(source, key);
      && Inv(d) && d.cfg == c.cfg && d.enabled == c.enabled
      && (forall k <- d.store :: k != ck ==> k in c.store && c.store[k] == d.store[k])
      && (Accepts(c.enabled, c.cfg, rows) ==>
            ck in d.store && d.store[ck] == Entry(rows, rows.bytes, now + c.cfg.ttl) && d.lru != [] && d.lru[0] == ck)
      && (!Accepts(c.enabled, c.cfg, rows) ==> d == c)
  {
    hide Sum, Evict;
    if Accepts(c.enabled, c.cfg, rows) {
      var ck := CompositeKey(source, key);
      var e := Entry(rows, rows.bytes, now + c.cfg.ttl);
      if ck in c.store {
        RefreshLinked(c, ck, e);
        EvictKeeps(Refresh(c, ck, e), 0, false);
        EvictSparesFront(Refresh(c, ck, e));
      } else {
        EvictKeeps(c, rows.bytes, true);
        InsertLinked(Evict(c, rows.bytes, true), ck, e);
      }
    }
  }

  lemma {:induction false} Touch(c: Cache, ck: string)
    requires Linked(c) && ck in c.store
    ensures Linked(c.(lru := [ck] + Without(c.lru, ck)))
  {
    hide Sum, NoDup;
    RefreshLinked(c, ck, c.store[ck]);
    SumWithout(c.lru, ck, c.store);
    assert c.store[ck := c.store[ck]] == c.store;
    assert Refresh(c, ck, c.store[ck]) == c.(lru := [ck] + Without(c.lru, ck));
  }

  lemma {:induction false} GetKeeps(c: Cache, source: string, key: string, now: int)
    requires Inv(c)
    ensures Inv(AfterGet(c, source, key, now)) && Part(AfterGet(c, source, key, now), c)
    ensures Answer(c, source, key, now).Some? ==>
              AfterGet(c, source, key, now).store == c.store
                && AfterGet(c, source, key, now).lru[0] == CompositeKey(source, key)
  {
    hide Sum, NoDup, Linked, CompositeKey;
    var ck := CompositeKey(source, key);
    if c.enabled && c.cfg.enabled && ck in c.store {
      if c.store[ck].expire <= now { EraseLinked(c, ck); } else { Touch(c, ck); }
    }
  }

  /** Dropping a list of keys removes exactly those under the prefix. */
  lemma {:induction false} DropAllKeeps(c: Cache, keys: seq<string>, prefix: string)
    requires Linked(c)
    ensures var d := DropAll(c, keys, prefix);
      && Linked(d) && Part(d, c) && |d.store| <= |c.store| && d.total <= c.total
      && forall k :: k in d.store <==> k in c.store && !(k in keys && HasPrefix(k, prefix))
    decreases |keys|
  {
    hide Linked, HasPrefix;
    if keys != [] {
      assert forall k :: k in keys <==> k == keys[0] || k in keys[1..];
      if HasPrefix(keys[0], prefix) && keys[0] in c.store {
        EraseLinked(c, keys[0]);
        DropAllKeeps(Erase(c, keys[0]), keys[1..], prefix);
      } else {
        DropAllKeeps(c, keys[1..], prefix);
      }
    }
  }

  lemma {:induction false} InvalidateKeeps(c: Cache, source: string)
    requires Inv(c)
    ensures var d := Invalidate(c, source);
      && Inv(d) && Part(d, c)
      && forall k :: k in d.store <==> k in c.store && !HasPrefix(k, CompositeKey(source, ""))
  {
    if c.enabled { DropAllKeeps(c, c.lru, CompositeKey(source, "")); }
  }
}

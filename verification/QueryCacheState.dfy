/** The cache object: fields updated in place under its lock, with the eviction and invalidation loops. */
module QueryCacheState {
  import opened Wrappers
  import opened QueryCache

  class State {
    var cfg: Config
    var enabled: bool
    var store: map<string, Entry>
    var lru: seq<string>
    var totalBytes: nat

    ghost function View(): Cache reads this { Cache(cfg, enabled, store, lru, totalBytes) }

    ghost predicate Valid() reads this { Inv(View()) }

    constructor ()
      ensures Valid() && !enabled && store == map[]
    {
      cfg, enabled, store, lru, totalBytes := Config(false, 0, 0, 0), false, map[], [], 0;
    }

    method Configure(next: Config)
      modifies this
      ensures Valid() && View() == QueryCache.Configure(old(View()), next)
    {
      cfg, store, lru, totalBytes := next, map[], [], 0;
      enabled := next.enabled && next.ttl > 0;
    }

    /** eraseLocked. */
    method EraseLocked(key: string)
      requires key in store
      modifies this
      ensures View() == Erase(old(View()), key)
    {
      var bytes := store[key].bytes;
      totalBytes := totalBytes - (if bytes <= totalBytes then bytes else totalBytes);
      lru := Without(lru, key);
      store := map k | k in store && k != key :: store[k];
    }

    /** evictLocked. */
    method EvictLocked(incoming: nat, reserveSlot: bool)
      modifies this
      ensures View() == Evict(old(View()), incoming, reserveSlot)
    {
      while lru != []
        invariant Evict(View(), incoming, reserveSlot) == Evict(old(View()), incoming, reserveSlot)
        decreases |lru|
      {
        var tooMany := cfg.maxEntries > 0
          && (if reserveSlot then |store| >= cfg.maxEntries else |store| > cfg.maxEntries);
        var tooBig := cfg.maxBytes > 0 && totalBytes + incoming > cfg.maxBytes;
        if !tooMany && !tooBig { return; }
        var oldest := lru[|lru| - 1];
        WithoutShrinks(lru, oldest);
        if oldest !in store { lru := lru[..|lru| - 1]; } else { EraseLocked(oldest); }
      }
    }

    /** get: a hit is what the specification answers. */
    method Get(source: string, key: string, now: int) returns (out: Option<Rows>)
      requires Valid()
      modifies this
      ensures Valid() && out == Answer(old(View()), source, key, now)
        && View() == AfterGet(old(View()), source, key, now)
    {
      GetKeeps(View(), source, key, now);
      if !enabled || !cfg.enabled { return None; }
      var ck := CompositeKey(source, key);
      if ck !in store { return None; }
      if store[ck].expire <= now {
        EraseLocked(ck);
        return None;
      }
      out := Some(store[ck].rows);
      lru := [ck] + Without(lru, ck);
    }

    /** put. */
    method Put(source: string, key: string, rows: Rows, now: int)
      requires Valid()
      modifies this
      ensures Valid() && View() == QueryCache.Put(old(View()), source, key, rows, now)
    {
      hide Evict, Without, CompositeKey, Linked, Bounded;
      PutKeeps(View(), source, key, rows, now);
      if !enabled || !cfg.enabled || cfg.ttl <= 0 { return; }
      if cfg.maxBytes > 0 && rows.bytes > cfg.maxBytes { return; }
      var ck := CompositeKey(source, key);
      var entry := Entry(rows, rows.bytes, now + cfg.ttl);
      if ck in store {
        var bytes := store[ck].bytes;
        totalBytes := totalBytes - (if bytes <= totalBytes then bytes else totalBytes);
        store := store[ck := entry];
        totalBytes := totalBytes + rows.bytes;
        lru := [ck] + Without(lru, ck);
        assert View() == Refresh(old(View()), ck, entry);
        EvictLocked(0, false);
        return;
      }
      EvictLocked(rows.bytes, true);
      lru := [ck] + lru;
      totalBytes := totalBytes + rows.bytes;
      store := store[ck := entry];
    }

    /** invalidate: visits every key once and erases those under the source's prefix. */
    method Invalidate(source: string)
      requires Valid()
      modifies this
      ensures Valid() && View() == QueryCache.Invalidate(old(View()), source)
    {
      InvalidateKeeps(View(), source);
      if !enabled { return; }
      var prefix := CompositeKey(source, "");
      var keys := lru;
      for i := 0 to |keys|
        invariant DropAll(View(), keys[i..], prefix) == DropAll(old(View()), keys, prefix)
      {
        assert keys[i..][0] == keys[i] && keys[i..][1..] == keys[i + 1..];
        if HasPrefix(keys[i], prefix) && keys[i] in store { EraseLocked(keys[i]); }
      }
    }
  }
}

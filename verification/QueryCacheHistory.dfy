/**
  Every run of the cache against a plain history: a hit is the latest accepted,
  unexpired put for that source and key since the last reconfiguration or
  invalidation. This holds exactly when no two source names in use clash
  around the NUL separator.
*/
module QueryCacheHistory {
  import opened Wrappers
  import opened QueryCache

  datatype Event =
    | Configured(cfg: Config)
    | Was(source: string, key: string, rows: Rows, at: int)   // a put
    | Asked(source: string, key: string, at: int)             // a get
    | Dropped(source: string)                                 // an invalidate

  function Initial(): Cache { Cache(Config(false, 0, 0, 0), false, map[], [], 0) }

  function Step(c: Cache, e: Event): Cache {
    match e
    case Configured(cfg) => Configure(c, cfg)
    case Was(source, key, rows, at) => Put(c, source, key, rows, at)
    case Asked(source, key, at) => AfterGet(c, source, key, at)
    case Dropped(source) => Invalidate(c, source)
  }

  /** The cache after a run. */
  function After(h: seq<Event>): Cache {
    if h == [] then Initial() else Step(After(h[..|h| - 1]), h[|h| - 1])
  }

  /** The configuration in force, read off the history alone. */
  function InForce(h: seq<Event>): Config {
    if h == [] then Config(false, 0, 0, 0)
    else if h[|h| - 1].Configured? then h[|h| - 1].cfg else InForce(h[..|h| - 1])
  }

  predicate On(cfg: Config) { cfg.enabled && cfg.ttl > 0 }

  datatype Stamped = Stamped(rows: Rows, expire: int)

  /** The plain specification: the last put that counts for this source and key. */
  function Latest(h: seq<Event>, source: string, key: string): Option<Stamped> {
    if h == [] then None else
    var rest, e := h[..|h| - 1], h[|h| - 1];
    match e
    case Configured(_) => None
    case Dropped(s) => if s == source then None else Latest(rest, source, key)
    case Was(s, k, rows, at) =>
      if s == source && k == key && Accepts(On(InForce(rest)), InForce(rest), rows)
      then Some(Stamped(rows, at + InForce(rest).ttl)) else Latest(rest, source, key)
    case Asked(_, _, _) => Latest(rest, source, key)
  }

  // ------------------------------------------------------------ every run

  /** In every reachable state the list is a duplicate-free permutation of the keys, the total is exact and both
      bounds hold. */
  lemma {:induction false} AfterInv(h: seq<Event>)
    ensures Inv(After(h)) && After(h).cfg == InForce(h) && After(h).enabled == On(InForce(h))
  {
    hide Linked, Bounded;
    if h == [] {
      InitialInv();
    } else {
      var c, e := After(h[..|h| - 1]), h[|h| - 1];
      AfterInv(h[..|h| - 1]);
      match e
      case Configured(cfg) => ConfiguredInv(c, cfg);
      case Was(source, key, rows, at) => PutKeeps(c, source, key, rows, at);
      case Asked(source, key, at) => GetKeeps(c, source, key, at);
      case Dropped(source) => InvalidateKeeps(c, source);
    }
  }

  lemma {:induction false} InitialInv()
    ensures Inv(Initial())
  {
  }

  lemma {:induction false} ConfiguredInv(c: Cache, cfg: Config)
    ensures Inv(Configure(c, cfg))
  {
  }

  // ------------------------------------------------------- composite keys

  /** One name, the separator, and a prefix of the other. */
  predicate Clash(a: string, b: string) { HasPrefix(b, CompositeKey(a, "")) || HasPrefix(a, CompositeKey(b, "")) }

  lemma {:induction false} PrefixHasNul(b: string, a: string)
    requires HasPrefix(b, CompositeKey(a, ""))
    ensures '\0' in b
  {
    assert b[|a|] == b[..|a| + 1][|a|] == CompositeKey(a, "")[|a|];
  }

  /** Names without NUL never clash. */
  lemma {:induction false} NulFreeApart(a: string, b: string)
    ensures '\0' !in a && '\0' !in b ==> !Clash(a, b)
  {
    if HasPrefix(b, CompositeKey(a, "")) { PrefixHasNul(b, a); }
    if HasPrefix(a, CompositeKey(b, "")) { PrefixHasNul(a, b); }
  }

  lemma {:induction false} KeyUnderPrefix(a: string, source: string, key: string)
    requires HasPrefix(CompositeKey(source, key), CompositeKey(a, ""))
    ensures a == source || Clash(a, source)
  {
    var ck, p, q := CompositeKey(source, key), CompositeKey(a, ""), CompositeKey(source, "");
    assert p == a + ['\0'] && q == source + ['\0'];
    if |a| < |source| {
      assert source[..|p|] == ck[..|p|];
      assert HasPrefix(source, p);
    } else if |a| == |source| {
      assert a == p[..|a|] == ck[..|a|] == source;
    } else {
      assert a[..|q|] == p[..|q|] == ck[..|p|][..|q|] == ck[..|q|] == q;
      assert HasPrefix(a, q);
    }
  }

  lemma {:induction false} KeyHasPrefix(a: string, source: string, key: string)
    requires !Clash(a, source)
    ensures HasPrefix(CompositeKey(source, key), CompositeKey(a, "")) <==> a == source
  {
    var ck, p := CompositeKey(source, key), CompositeKey(a, "");
    if a == source { assert ck[..|p|] == p; }
    if HasPrefix(ck, p) { KeyUnderPrefix(a, source, key); }
  }

  lemma {:induction false} KeysApart(a: string, k: string, source: string, key: string)
    requires !Clash(a, source)
    ensures CompositeKey(a, k) == CompositeKey(source, key) <==> a == source && k == key
  {
    var x, y := CompositeKey(a, k), CompositeKey(source, key);
    if x == y {
      assert x[..|a| + 1] == CompositeKey(a, "");
      KeyHasPrefix(a, source, key);
      assert x[|a| + 1..] == k && y[|source| + 1..] == key;
    }
  }

  /** `source` clashes with no source name of the run. */
  predicate Apart(h: seq<Event>, source: string) {
    forall i :: 0 <= i < |h| && (h[i].Was? || h[i].Dropped?) ==> !Clash(h[i].source, source)
  }

  /** The store holds nothing but latest puts. */
  lemma {:induction false} StoreIsLatest(h: seq<Event>, source: string, key: string)
    requires Apart(h, source)
    ensures var c, ck := After(h), CompositeKey(source, key);
      ck in c.store ==> Latest(h, source, key) == Some(Stamped(c.store[ck].rows, c.store[ck].expire))
  {
    hide Inv, CompositeKey, Put, AfterGet, Invalidate, HasPrefix, Accepts;
    if h != [] {
      var rest, e := h[..|h| - 1], h[|h| - 1];
      var c, ck := After(rest), CompositeKey(source, key);
      StoreIsLatest(rest, source, key);
      AfterInv(rest);
      match e
      case Configured(_) =>
      case Was(s, k, rows, at) => PutKeeps(c, s, k, rows, at); KeysApart(s, k, source, key);
      case Asked(s, k, at) => GetKeeps(c, s, k, at);
      case Dropped(s) => InvalidateKeeps(c, s); KeyHasPrefix(s, source, key);
    }
  }

  /** A hit is the latest accepted put, and it has not expired. */
  lemma {:induction false} HitIsLatest(h: seq<Event>, source: string, key: string, now: int)
    requires Apart(h, source) && Answer(After(h), source, key, now).Some?
    ensures Latest(h, source, key).Some?
    ensures Latest(h, source, key).value.rows == Answer(After(h), source, key, now).value
    ensures now < Latest(h, source, key).value.expire
  {
    hide Inv, CompositeKey;
    StoreIsLatest(h, source, key);
  }

  /** The usual case: names without NUL, on every run whatsoever. */
  lemma {:induction false} HitIsLatestForPlainNames(h: seq<Event>, source: string, key: string, now: int)
    requires '\0' !in source && forall i :: 0 <= i < |h| && (h[i].Was? || h[i].Dropped?) ==> '\0' !in h[i].source
    requires Answer(After(h), source, key, now).Some?
    ensures Latest(h, source, key).Some?
      && Latest(h, source, key).value.rows == Answer(After(h), source, key, now).value
    ensures now < Latest(h, source, key).value.expire
  {
    hide After, Answer, Latest, Clash;
    forall i | 0 <= i < |h| && (h[i].Was? || h[i].Dropped?)
      ensures !Clash(h[i].source, source)
    {
      NulFreeApart(h[i].source, source);
    }
    HitIsLatest(h, source, key, now);
  }

  /** Right after an accepted put the same question is a hit with those rows. */
  lemma {:induction false} PutThenHit(h: seq<Event>, source: string, key: string, rows: Rows, at: int, now: int)
    requires Accepts(On(InForce(h)), InForce(h), rows) && now < at + InForce(h).ttl
    ensures Answer(After(h + [Was(source, key, rows, at)]), source, key, now) == Some(rows)
  {
    hide Inv, CompositeKey, Put;
    AfterInv(h);
    var h' := h + [Was(source, key, rows, at)];
    assert h'[..|h'| - 1] == h;
    PutKeeps(After(h), source, key, rows, at);
    AfterInv(h');
  }

  /** A put too large for the cache leaves the older entry in place: the next question can still be answered with it. */
  lemma {:induction false} OversizedPutChangesNothing(h: seq<Event>, source: string, key: string, rows: Rows, at: int)
    requires 0 < InForce(h).maxBytes < rows.bytes
    ensures After(h + [Was(source, key, rows, at)]) == After(h)
  {
    var h' := h + [Was(source, key, rows, at)];
    AfterInv(h);
    assert h'[..|h'| - 1] == h;
  }

  // --------------------------------------------------------- and only then

  /** Two names that clash share a composite key. */
  lemma {:induction false} ClashingKeys(a: string, b: string) returns (k: string, j: string)
    requires HasPrefix(b, CompositeKey(a, ""))
    ensures CompositeKey(a, k) == CompositeKey(b, j)
  {
    k, j := b[|a| + 1..] + ['\0'], "";
    assert b == b[..|a| + 1] + b[|a| + 1..];
    assert CompositeKey(a, k) == (a + ['\0']) + b[|a| + 1..] + ['\0'];
  }

  lemma {:induction false} OnePut(source: string, key: string, rows: Rows)
    requires rows.bytes == 0
    ensures var h := [Configured(Config(true, 1, 0, 0)), Was(source, key, rows, 0)];
      After(h).enabled && After(h).cfg.enabled
      && CompositeKey(source, key) in After(h).store && After(h).store[CompositeKey(source, key)] == Entry(rows, 0, 1)
  {
    hide Put, Inv;
    var h0 := [Configured(Config(true, 1, 0, 0))];
    var h := h0 + [Was(source, key, rows, 0)];
    assert h[..1] == h0 && h == [Configured(Config(true, 1, 0, 0)), Was(source, key, rows, 0)];
    assert h0[..0] == [];
    assert InForce(h0) == Config(true, 1, 0, 0);
    AfterInv(h0);
    PutKeeps(After(h0), source, key, rows, 0);
  }

  /** Whenever two names clash, some run answers one with rows that were put under the other. */
  lemma {:induction false} ClashGivesWrongHit(a: string, b: string) returns (h: seq<Event>, source: string, key: string)
    requires Clash(a, b)
    ensures source == a || source == b
    ensures forall i :: 0 <= i < |h| && (h[i].Was? || h[i].Dropped?) ==> h[i].source == a || h[i].source == b
    ensures Answer(After(h), source, key, 0).Some? && Latest(h, source, key).None?
  {
    hide Put, After, Inv;
    var k, j;
    var rows := Rows(7, 0);
    var other: string;
    if HasPrefix(b, CompositeKey(a, "")) { source, other := a, b; } else { source, other := b, a; }
    k, j := ClashingKeys(source, other);
    h, key := [Configured(Config(true, 1, 0, 0)), Was(other, j, rows, 0)], k;
    OnePut(other, j, rows);
    assert source != other;
    assert h[..1] == [Configured(Config(true, 1, 0, 0))];
  }
}

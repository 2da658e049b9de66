/**
  What becomes of a connection, told from the events of a run: which ones are
  closed for good, which ones go on, and to whom. A connection that is broken,
  too old or failed its ping is never idle, held or granted again.
*/
module PoolCustody {
  import opened Wrappers
  import opened Pool
  import opened PoolProtocol
  import opened PoolTheorems

  /** Too old to be used at time `now`. */
  predicate Worn(c: Config, conn: Conn, now: int) { c.maxLifetime > 0 && conn.createdAt + c.maxLifetime <= now }

  /** Must answer a ping before it is used at time `now`. */
  predicate Due(c: Config, item: Idle, now: int) {
    c.validationInterval == 0 || item.lastValidated + c.validationInterval <= now
  }

  /** Closed, or failed its ping and about to be closed. */
  ghost predicate OutOfUse(w: World, conn: Conn) {
    Retired(conn) in w.holds || exists r :: AsyncDrop(r, conn) in w.holds
  }

  /** Somebody could still get hold of the connection. */
  predicate InUse(w: World, conn: Conn) {
    || (exists item <- w.shared.idle :: item.conn == conn)
    || (exists h <- w.holds :: Uses(h, conn))
  }

  predicate Uses(h: Hold, conn: Conn) {
    || h == Handle(conn) || (h.Deliver? && h.outcome == Granted(conn))
    || ((h.SyncPing? || h.AsyncPing? || h.HealthPing?) && h.item.conn == conn)
  }

  // ------------------------------------------------------- closed for good

  lemma {:induction false} OthersKeep(w: World, e: Event, h: Hold)
    requires h in w.holds && (UsesHold(e) ==> e.i < |w.holds| && w.holds[e.i] != h)
    ensures h in Others(w, e)
  {
    if UsesHold(e) {
      var j :| 0 <= j < |w.holds| && w.holds[j] == h;
      var o := Others(w, e);
      if j < e.i { assert o[j] == h; } else { assert o[j - 1] == h; }
    }
  }

  lemma {:induction false} RetiredStays(c: Config, w: World, e: Event, conn: Conn)
    requires Enabled(c, w, e) && Retired(conn) in w.holds
    ensures Retired(conn) in Apply(c, w, e).holds
  {
    hide Fire;
    OthersKeep(w, e, Retired(conn));
  }

  lemma {:induction false} OutOfUseStays(c: Config, w: World, e: Event, conn: Conn)
    requires Enabled(c, w, e) && OutOfUse(w, conn)
    ensures OutOfUse(Apply(c, w, e), conn)
  {
    if Retired(conn) in w.holds {
      RetiredStays(c, w, e, conn);
    } else {
      var r :| AsyncDrop(r, conn) in w.holds;
      if UsesHold(e) && w.holds[e.i] == AsyncDrop(r, conn) {
        assert Fire(c, w, e).holds[0] == Retired(conn);
      } else {
        OthersKeep(w, e, AsyncDrop(r, conn));
      }
    }
  }

  lemma {:induction false} Owned(hs: seq<Hold>, x: Conn, h: Hold)
    requires h in hs && ConnOf(h, x) == 1
    ensures ConnIn(hs, x) >= 1
  {
    if hs[0] != h { Owned(hs[1..], x, h); }
  }

  lemma {:induction false} OwnedTwice(hs: seq<Hold>, x: Conn, g: Hold, h: Hold)
    requires g in hs && h in hs && g != h && ConnOf(g, x) == 1 && ConnOf(h, x) == 1
    ensures ConnIn(hs, x) >= 2
  {
    if hs[0] == g { Owned(hs[1..], x, h); }
    else if hs[0] == h { Owned(hs[1..], x, g); }
    else { OwnedTwice(hs[1..], x, g, h); }
  }

  lemma {:induction false} IdleOwned(items: seq<Idle>, x: Conn, item: Idle)
    requires item in items && item.conn == x
    ensures IdleIn(items, x) >= 1
  {
    if items[0] != item { IdleOwned(items[1..], x, item); }
  }

  lemma {:induction false} OutOfUseIsUnused(w: World, conn: Conn)
    requires ConnOnce(w, conn) && OutOfUse(w, conn)
    ensures !InUse(w, conn)
  {
    var g := Retired(conn);
    if Retired(conn) !in w.holds {
      var r :| AsyncDrop(r, conn) in w.holds;
      g := AsyncDrop(r, conn);
    }
    Owned(w.holds, conn, g);
    forall item <- w.shared.idle ensures item.conn != conn {
      if item.conn == conn { IdleOwned(w.shared.idle, conn, item); }
    }
    forall h <- w.holds ensures !Uses(h, conn) {
      if Uses(h, conn) { OwnedTwice(w.holds, conn, g, h); }
    }
  }

  /** Once out of use, out of use in every later state: neither idle, nor held, nor on its way to anybody. */
  lemma {:induction false} NeverUsedAgain(c: Config, ws: seq<World>, es: seq<Event>, k: nat, m: nat, conn: Conn)
    requires IsRun(c, ws, es) && k <= m <= |es| && OutOfUse(ws[k], conn)
    ensures OutOfUse(ws[m], conn) && !InUse(ws[m], conn)
    ensures Retired(conn) in ws[k].holds ==> Retired(conn) in ws[m].holds
    decreases m
  {
    hide Enabled, Apply, Init, OutOfUse, InUse;
    if k < m {
      NeverUsedAgain(c, ws, es, k, m - 1, conn);
      OutOfUseStays(c, ws[m - 1], es[m - 1], conn);
      if Retired(conn) in ws[m - 1].holds { RetiredStays(c, ws[m - 1], es[m - 1], conn); }
    }
    RunInv(c, ws, es, m);
    assert ConnOnce(ws[m], conn);
    OutOfUseIsUnused(ws[m], conn);
  }

  // ------------------------------------------------- exactly which, and when

  /** Event `e` takes the connection out of use: a return that reports it unusable or finds it too old, a ping that it
      needed and did not answer, a health check that lets it go, an idle connection found too old, or anything that
      still holds one after the pool was closed. */
  predicate Discards(c: Config, w: World, e: Event, conn: Conn)
    requires Enabled(c, w, e)
  {
    var closed := w.shared.closed;
    match e
    case Return(i, now, reusable) => w.holds[i].conn == conn && (closed || !reusable || Worn(c, conn, now))
    case SyncPingDone(i, now, ok) =>
      && w.holds[i].item.conn == conn && (closed || Worn(c, conn, now) || (Due(c, w.holds[i].item, now) && !ok))
    case AsyncPingDone(i, ok) => w.holds[i].item.conn == conn && (closed || !ok)
    case HealthDone(i, now, ok) =>
      && w.holds[i].item.conn == conn
      && (closed || w.holds[i].retire || Worn(c, conn, now) || (Due(c, w.holds[i].item, now) && !ok))
    case AsyncEnter(_, now, _) =>
      !closed && w.shared.idle != [] && w.shared.idle[0].conn == conn && Worn(c, conn, now)
    case AsyncPingRejected(i, _) => closed && w.holds[i].item.conn == conn
    case AsyncPingDrop(i) => w.holds[i].conn == conn
    case SyncCreateDone(_, made) => closed && made == Some(conn)
    case AsyncCreateDone(_, made) => closed && made == Some(conn)
    case HealthRefilled(_, _, conns) => closed && conn in conns
    case ShutdownPop(_) => w.shared.idle[0].conn == conn
    case _ => false
  }

  predicate Ends(h: Hold, conn: Conn) { (h.Retired? || h.AsyncDrop?) && h.conn == conn }

  lemma {:induction false} RetirementsAre(conns: seq<Conn>, conn: Conn)
    ensures SomeEnds(Retirements(conns), conn) <==> conn in conns
  {
    if conns != [] {
      var rest := Retirements(conns[1..]);
      RetirementsAre(conns[1..], conn);
      assert Retirements(conns) == [Retired(conns[0])] + rest && conns == [conns[0]] + conns[1..];
      if conn in conns[1..] {
        var h :| h in rest && Ends(h, conn);
        assert h in Retirements(conns);
      }
      assert Retired(conns[0]) in Retirements(conns);
    }
  }

  ghost predicate SomeEnds(hs: seq<Hold>, conn: Conn) { exists h <- hs :: Ends(h, conn) }

  lemma {:induction false} FewEnd(hs: seq<Hold>, conn: Conn)
    requires |hs| <= 2
    ensures SomeEnds(hs, conn) <==> (|hs| > 0 && Ends(hs[0], conn)) || (|hs| > 1 && Ends(hs[1], conn))
  {
  }

  lemma {:induction false} NoneEnd(hs: seq<Hold>, conn: Conn)
    requires forall h <- hs :: !h.Retired? && !h.AsyncDrop?
    ensures !SomeEnds(hs, conn)
  {
  }

  lemma {:induction false} AsyncEnds(c: Config, w: World, e: Event, conn: Conn)
    requires Enabled(c, w, e) && IsAsync(e)
    ensures SomeEnds(Fire(c, w, e).holds, conn) <==> Discards(c, w, e, conn)
  {
    hide SomeEnds;
    FewEnd(Fire(c, w, e).holds, conn);
  }

  lemma {:induction false} ServingEnds(c: Config, w: World, e: Event, conn: Conn)
    requires Enabled(c, w, e) && IsServing(e)
    ensures SomeEnds(Fire(c, w, e).holds, conn) <==> Discards(c, w, e, conn)
  {
    hide SomeEnds, Expirations, Drops, Kept, Expired, Serve;
    var s, hs := w.shared, Fire(c, w, e).holds;
    match e {
      case Expire(now, stopped) =>
        ListHolds(Expired(s.waiters, now, stopped), stopped);
        NoneEnd(hs, conn);
      case Return(i, now, reusable) =>
        if s.closed || !reusable || Worn(c, w.holds[i].conn, now) { FewEnd(hs, conn); } else {
          ListHolds(Expired(s.waiters, now, {}), {});
          NoneEnd(hs, conn);
        }
      case Wake =>
        ServeHolds(c, s);
        NoneEnd(hs, conn);
    }
  }

  lemma {:induction false} OtherEnds(c: Config, w: World, e: Event, conn: Conn)
    requires Enabled(c, w, e) && !IsAsync(e) && !IsServing(e)
    ensures SomeEnds(Fire(c, w, e).holds, conn) <==> Discards(c, w, e, conn)
  {
    hide SomeEnds, Closures, Retirements;
    var hs := Fire(c, w, e).holds;
    if e.HealthRefilled? {
      RetirementsAre(e.conns, conn);
      FewEnd([], conn);
    } else if e.ShutdownEnd? {
      ListHolds(w.holds[e.i].drained, {});
      NoneEnd(hs, conn);
    } else {
      FewEnd(hs, conn);
    }
  }

  /** A connection goes out of use by such an event and by no other. */
  lemma {:induction false} DiscardIff(c: Config, w: World, e: Event, conn: Conn)
    requires Enabled(c, w, e)
    ensures OutOfUse(Apply(c, w, e), conn) <==> OutOfUse(w, conn) || Discards(c, w, e, conn)
  {
    hide Fire, Discards;
    if IsAsync(e) { AsyncEnds(c, w, e, conn); }
    else if IsServing(e) { ServingEnds(c, w, e, conn); }
    else { OtherEnds(c, w, e, conn); }
    var o, v := Fire(c, w, e), Apply(c, w, e);
    assert v.holds == Others(w, e) + o.holds;
    if OutOfUse(w, conn) { OutOfUseStays(c, w, e, conn); }
    EndsIffOut(w, conn);
    EndsIffOut(v, conn);
  }

  lemma {:induction false} EndsIffOut(w: World, conn: Conn)
    ensures OutOfUse(w, conn) <==> exists h <- w.holds :: Ends(h, conn)
  {
    if h :| h in w.holds && Ends(h, conn) {
      assert h == Retired(conn) || (h.AsyncDrop? && h == AsyncDrop(h.req, conn));
    }
  }

  /** Over a run: a connection is out of use exactly when some earlier event discarded it. */
  lemma {:induction false} OutOfUseIff(c: Config, ws: seq<World>, es: seq<Event>, m: nat, conn: Conn)
    requires IsRun(c, ws, es) && m <= |es|
    ensures OutOfUse(ws[m], conn) <==> exists k :: 0 <= k < m && Discards(c, ws[k], es[k], conn)
  {
    hide Enabled, Apply, Discards;
    if m > 0 {
      OutOfUseIff(c, ws, es, m - 1, conn);
      DiscardIff(c, ws[m - 1], es[m - 1], conn);
    }
  }

  lemma {:induction false} OnlyPingsLinger(c: Config, w: World, e: Event, h: Hold)
    requires Enabled(c, w, e) && h in Fire(c, w, e).holds && h.AsyncDrop?
    ensures e.AsyncPingDone?
  {
    hide Expirations, Drops, Closures, Kept, Expired, Serve, Retirements;
    match e {
      case Expire(now, stopped) => ListHolds(Expired(w.shared.waiters, now, stopped), stopped);
      case Return(i, now, reusable) => ListHolds(Expired(w.shared.waiters, now, {}), {});
      case Wake => ServeHolds(c, w.shared);
      case HealthRefilled(i, now, conns) => RetirementHolds(conns);
      case ShutdownEnd(i) => ListHolds(w.holds[i].drained, {});
      case _ =>
    }
  }

  lemma {:induction false} DiscardRetires(c: Config, w: World, e: Event, conn: Conn)
    requires Enabled(c, w, e) && Discards(c, w, e, conn) && !e.AsyncPingDone?
    ensures Retired(conn) in Apply(c, w, e).holds
  {
    hide Fire, Discards;
    var hs := Fire(c, w, e).holds;
    if IsAsync(e) { AsyncEnds(c, w, e, conn); }
    else if IsServing(e) { ServingEnds(c, w, e, conn); }
    else { OtherEnds(c, w, e, conn); }
    var h :| h in hs && Ends(h, conn);
    if h.AsyncDrop? { OnlyPingsLinger(c, w, e, h); }
  }

  /** A connection discarded at step `k` is never idle, held or granted again; it is closed there and then, or, when an
      asynchronous ping failed, as the next thing its task does. */
  lemma {:induction false} DiscardedForGood(c: Config, ws: seq<World>, es: seq<Event>, k: nat, m: nat, conn: Conn)
    requires IsRun(c, ws, es) && k < m <= |es| && Discards(c, ws[k], es[k], conn)
    ensures !InUse(ws[m], conn)
    ensures es[k].AsyncPingDone? || Retired(conn) in ws[m].holds
  {
    hide Enabled, Apply, Discards, InUse, Init;
    DiscardIff(c, ws[k], es[k], conn);
    if !es[k].AsyncPingDone? { DiscardRetires(c, ws[k], es[k], conn); }
    NeverUsedAgain(c, ws, es, k + 1, m, conn);
  }

  /** In particular a connection returned as unusable, at whatever time and to whatever pool. */
  lemma {:induction false} BrokenReturn(c: Config, ws: seq<World>, es: seq<Event>, k: nat, m: nat)
    requires IsRun(c, ws, es) && k < m <= |es| && es[k].Return? && !es[k].reusable
    ensures es[k].i < |ws[k].holds| && ws[k].holds[es[k].i].Handle?
    ensures var conn := ws[k].holds[es[k].i].conn; Retired(conn) in ws[m].holds && !InUse(ws[m], conn)
  {
    hide Fire, InUse, Init;
    DiscardedForGood(c, ws, es, k, m, ws[k].holds[es[k].i].conn);
  }

  /** In every state each connection ever opened is either still in use or was discarded by an earlier event. */
  lemma {:induction false} UsedUntilDiscarded(c: Config, ws: seq<World>, es: seq<Event>, m: nat, conn: Conn)
    requires IsRun(c, ws, es) && m <= |es| && conn in ws[m].made
    ensures InUse(ws[m], conn) <==> forall k :: 0 <= k < m ==> !Discards(c, ws[k], es[k], conn)
  {
    hide Enabled, Apply, Discards, OutOfUse, InUse;
    OutOfUseIff(c, ws, es, m, conn);
    RunInv(c, ws, es, m);
    assert ConnOnce(ws[m], conn);
    if OutOfUse(ws[m], conn) { OutOfUseIsUnused(ws[m], conn); } else { Somewhere(ws[m], conn); }
  }

  lemma {:induction false} Somewhere(w: World, conn: Conn)
    requires IdleIn(w.shared.idle, conn) + ConnIn(w.holds, conn) == 1 && !OutOfUse(w, conn)
    ensures InUse(w, conn)
  {
    EndsIffOut(w, conn);
    if IdleIn(w.shared.idle, conn) == 1 { IdleWitness(w.shared.idle, conn); } else { HoldWitness(w.holds, conn); }
  }

  lemma {:induction false} IdleWitness(items: seq<Idle>, x: Conn)
    requires IdleIn(items, x) > 0
    ensures exists item <- items :: item.conn == x
  {
    if items[0].conn == x { assert items[0] in items; } else { IdleWitness(items[1..], x); }
  }

  lemma {:induction false} HoldWitness(hs: seq<Hold>, x: Conn)
    requires ConnIn(hs, x) > 0
    ensures exists h <- hs :: Uses(h, x) || Ends(h, x)
  {
    if ConnOf(hs[0], x) == 1 { assert hs[0] in hs; } else { HoldWitness(hs[1..], x); }
  }

  // --------------------------------------------------------- who gets it next

  /** The first waiter of the queue that is still in time. */
  predicate FirstInTime(ws: seq<Waiter>, now: int, p: nat) {
    p < |ws| && ws[p].deadline > now && forall q :: 0 <= q < p ==> ws[q].deadline <= now
  }

  lemma {:induction false} KeptIs(ws: seq<Waiter>, now: int, p: nat)
    requires FirstInTime(ws, now, p)
    ensures Kept(ws, now, {}) == [ws[p]] + Kept(ws[p + 1..], now, {})
  {
    if p > 0 {
      KeptIs(ws[1..], now, p - 1);
      assert ws[1..][p..] == ws[p + 1..];
    }
  }

  lemma {:induction false} KeptMember(ws: seq<Waiter>, now: int, x: Waiter)
    ensures x in Kept(ws, now, {}) <==> x in ws && x.deadline > now
    ensures x in Expired(ws, now, {}) <==> x in ws && x.deadline <= now
  {
    if ws != [] {
      KeptMember(ws[1..], now, x);
      assert ws == [ws[0]] + ws[1..];
    }
  }

  lemma {:induction false} ExpiredAreTold(ws: seq<Waiter>, x: Waiter)
    requires x in ws
    ensures Deliver(x.req, Exhausted) in Expirations(ws, {})
  {
    if ws[0] == x { assert Expirations(ws, {})[0] == Deliver(x.req, Exhausted); } else { ExpiredAreTold(ws[1..], x); }
  }

  /** A usable connection returned to an open pool goes to the first waiter still in time, past those that are not. */
  lemma {:induction false} ReturnedToWaiter(c: Config, w: World, e: Event, p: nat)
    requires Enabled(c, w, e) && e.Return? && e.reusable && !w.shared.closed && !Worn(c, w.holds[e.i].conn, e.now)
    requires FirstInTime(w.shared.waiters, e.now, p)
    ensures var v, x := Apply(c, w, e), w.shared.waiters[p];
      && Deliver(x.req, Granted(w.holds[e.i].conn)) in v.holds && v.served == w.served + [x.ticket]
      && v.shared.idle == w.shared.idle && v.shared.total == w.shared.total
    ensures forall y :: y in Apply(c, w, e).shared.waiters <==>
      y in w.shared.waiters[p + 1..] && y.deadline > e.now
  {
    hide Kept, Expired, Drops;
    var ws, o := w.shared.waiters, Fire(c, w, e);
    KeptIs(ws, e.now, p);
    assert Kept(ws, e.now, {})[1..] == Kept(ws[p + 1..], e.now, {});
    assert o.holds[0] == Deliver(ws[p].req, Granted(w.holds[e.i].conn)) && o.holds[0] in o.holds;
    assert o.s.waiters == Kept(ws[p + 1..], e.now, {});
    forall y ensures y in Apply(c, w, e).shared.waiters <==> y in ws[p + 1..] && y.deadline > e.now {
      KeptMember(ws[p + 1..], e.now, y);
    }
  }

  /** With no waiter in time it becomes idle, last in line and freshly validated, and the late waiters are told. */
  lemma {:induction false} ReturnedToIdle(c: Config, w: World, e: Event)
    requires Enabled(c, w, e) && e.Return? && e.reusable && !w.shared.closed && !Worn(c, w.holds[e.i].conn, e.now)
    requires forall x <- w.shared.waiters :: x.deadline <= e.now
    ensures var v := Apply(c, w, e);
      && v.shared.idle == w.shared.idle + [Idle(w.holds[e.i].conn, e.now, e.now)] && v.shared.total == w.shared.total
      && v.shared.waiters == []
      && forall x <- w.shared.waiters :: Deliver(x.req, Exhausted) in v.holds
  {
    var ws := w.shared.waiters;
    var kept, gone := Kept(ws, e.now, {}), Expired(ws, e.now, {});
    if kept != [] { KeptMember(ws, e.now, kept[0]); }
    forall x <- ws ensures Deliver(x.req, Exhausted) in Expirations(gone, {}) {
      KeptMember(ws, e.now, x);
      ExpiredAreTold(gone, x);
    }
  }

  /** A connection that did not need its ping, or answered it, goes on: to the caller, to the request, or back to the
      end of the idle queue with its validation time moved on exactly when it was pinged. */
  lemma {:induction false} PingedGoesOn(c: Config, w: World, e: Event)
    requires Enabled(c, w, e) && (e.SyncPingDone? || e.AsyncPingDone? || e.HealthDone?)
    requires !Discards(c, w, e, w.holds[e.i].item.conn)
    ensures var v, item := Apply(c, w, e), w.holds[e.i].item;
      && v.shared.total == w.shared.total
      && (e.SyncPingDone? ==> Handle(item.conn) in v.holds)
      && (e.AsyncPingDone? ==> Deliver(w.holds[e.i].req, Granted(item.conn)) in v.holds)
      && (e.HealthDone? ==>
            var validated := if Due(c, item, e.now) then e.now else item.lastValidated;
            v.shared.idle == w.shared.idle + [Idle(item.conn, item.returnedAt, validated)])
  {
    var o := Fire(c, w, e);
    if !e.HealthDone? { assert o.holds[0] in o.holds; }
  }

  /** A connection opened for somebody on an open pool goes to that caller or request, one opened to refill is idle. */
  lemma {:induction false} OpenedForAsker(c: Config, w: World, e: Event, conn: Conn)
    requires Enabled(c, w, e) && conn in Opens(e) && !w.shared.closed
    ensures var v := Apply(c, w, e);
      && (e.SyncCreateDone? ==> Handle(conn) in v.holds && v.shared.total == w.shared.total)
      && (e.AsyncCreateDone? ==>
            Deliver(w.holds[e.i].req, Granted(conn)) in v.holds && v.shared.total == w.shared.total)
      && (e.HealthRefilled? ==> Idle(conn, e.now, e.now) in v.shared.idle)
  {
    var o := Fire(c, w, e);
    if e.HealthRefilled? { FreshMember(e.conns, e.now, conn); } else { assert o.holds[0] in o.holds; }
  }

  lemma {:induction false} FreshMember(conns: seq<Conn>, now: int, conn: Conn)
    requires conn in conns
    ensures Idle(conn, now, now) in FreshIdle(conns, now)
  {
    if conns[0] == conn { assert FreshIdle(conns, now)[0] == Idle(conn, now, now); }
    else { FreshMember(conns[1..], now, conn); }
  }

  /** On an open pool a request is served from the idle queue, from a free slot, or by waiting, in this order; it is
      turned away only when it will not wait. */
  lemma {:induction false} RequestIsServed(c: Config, w: World, e: Event)
    requires Enabled(c, w, e) && e.AsyncEnter? && !w.shared.closed
    ensures var v, s, req := Apply(c, w, e), w.shared, w.holds[e.i].req;
      if s.idle != [] then
        var item := s.idle[0];
        && v.shared.idle == s.idle[1..] && v.shared.waiters == s.waiters
        && (if Worn(c, item.conn, e.now) then Starting(req) in v.holds
            else if Due(c, item, e.now) then AsyncPing(req, item) in v.holds
            else Deliver(req, Granted(item.conn)) in v.holds)
      else if s.total < c.maxConn then AsyncCreate(req) in v.holds && v.shared.waiters == s.waiters
      else if e.effective == 0 then Deliver(req, Exhausted) in v.holds && v.shared == s
      else
        && v.shared.waiters == s.waiters + [Waiter(req, w.nextTicket, e.now + e.effective)]
        && v.nextTicket > w.nextTicket
  {
    var o := Fire(c, w, e);
    assert o.holds != [] ==> o.holds[0] in o.holds;
    assert |o.holds| > 1 ==> o.holds[1] in o.holds;
  }

  /** A request never gets an idle connection that is too old or due for a ping without one. */
  lemma {:induction false} NoUnvalidatedGrant(c: Config, w: World, e: Event, conn: Conn)
    requires Enabled(c, w, e) && e.AsyncEnter? && Deliver(w.holds[e.i].req, Granted(conn)) in Fire(c, w, e).holds
    ensures w.shared.idle != [] && w.shared.idle[0].conn == conn
    ensures !Worn(c, conn, e.now) && !Due(c, w.shared.idle[0], e.now)
  {
  }

  // -------------------------------------------------------- why it was refused

  predicate WasLate(ws: seq<Waiter>, req: nat, now: int) { exists x <- ws :: x.req == req && x.deadline <= now }

  /** What the outcome of a callback says is true: it was closed, exhausted, stopped, overloaded or not connected. */
  predicate Earned(c: Config, w: World, e: Event, req: nat, o: Outcome)
    requires Enabled(c, w, e)
  {
    match o
    case Granted(conn) => conn in w.made || conn in Opens(e)
    case PoolClosed => w.shared.closed
    case Exhausted =>
      || (e.AsyncEnter? && e.effective == 0 && w.shared.idle == [] && w.shared.total >= c.maxConn)
      || ((e.Return? || e.Expire?) && WasLate(w.shared.waiters, req, e.now))
    case Stopped => e.AsyncStop? || (e.Expire? && req in e.stopped)
    case Overloaded => e.AsyncPingRejected? || e.AsyncCreateRejected?
    case ConnectFailed => e.AsyncCreateDone? && e.result.None? && !w.shared.closed
  }

  lemma {:induction false} ExpirationsEarned(ws: seq<Waiter>, stopped: set<nat>, h: Hold)
    requires h in Expirations(ws, stopped)
    ensures h.Deliver? && (h.outcome == Stopped || h.outcome == Exhausted)
    ensures h.outcome == Stopped ==> h.req in stopped
    ensures h.outcome == Exhausted ==> h.req !in stopped && exists x <- ws :: x.req == h.req
  {
    if h != Expirations(ws, stopped)[0] { ExpirationsEarned(ws[1..], stopped, h); } else { assert ws[0] in ws; }
  }

  lemma {:induction false} ClosuresEarned(ws: seq<Waiter>, h: Hold)
    requires h in Closures(ws)
    ensures h.Deliver? && h.outcome == PoolClosed
  {
    if h != Closures(ws)[0] { ClosuresEarned(ws[1..], h); }
  }

  lemma {:induction false} LateEarned(ws: seq<Waiter>, now: int, stopped: set<nat>, h: Hold)
    requires h in Expirations(Expired(ws, now, stopped), stopped)
    ensures h.Deliver? && (h.outcome == Stopped || h.outcome == Exhausted)
    ensures h.outcome == Stopped ==> h.req in stopped
    ensures h.outcome == Exhausted ==> WasLate(ws, h.req, now)
  {
    var gone := Expired(ws, now, stopped);
    ExpirationsEarned(gone, stopped, h);
    if h.outcome == Exhausted {
      var x :| x in gone && x.req == h.req;
      Partition(ws, now, stopped);
    }
  }

  lemma {:induction false} ServingEarned(c: Config, w: World, e: Event, h: Hold)
    requires Enabled(c, w, e) && Inv(c, w) && (IsServing(e) || e.ShutdownEnd?)
    requires h in Fire(c, w, e).holds && h.Deliver? && !h.outcome.Granted?
    ensures Earned(c, w, e, h.req, h.outcome)
  {
    hide Expirations, Drops, Closures, Kept, Expired, Serve;
    match e
    case Expire(now, stopped) => LateEarned(w.shared.waiters, now, stopped, h);
    case Return(i, now, reusable) =>
      ListHolds(Expired(w.shared.waiters, now, {}), {});
      if h in Expirations(Expired(w.shared.waiters, now, {}), {}) { LateEarned(w.shared.waiters, now, {}, h); }
    case Wake => ServeGrants(c, w.shared);
    case ShutdownEnd(i) =>
      ClosuresEarned(w.holds[i].drained, h);
      assert w.holds[i] in w.holds;
  }

  lemma {:induction false} ServeGrants(c: Config, s: Shared)
    ensures forall h <- Serve(c, s).holds :: h.Deliver? ==> h.outcome.Granted?
    decreases |s.waiters|
  {
    if s.waiters != [] {
      if s.idle != [] {
        ServeGrants(c, s.(idle := s.idle[1..], waiters := s.waiters[1..], borrowed := s.borrowed + 1));
      } else if s.total < c.maxConn {
        ServeGrants(c, s.(total := s.total + 1, waiters := s.waiters[1..]));
      }
    }
  }

  /** In every run, a callback that brings no connection tells the truth about why. */
  lemma {:induction false} RefusalsAreEarned(c: Config, ws: seq<World>, es: seq<Event>, k: nat, h: Hold)
    requires IsRun(c, ws, es) && k < |es| && h.Deliver? && !h.outcome.Granted?
    requires h in ws[k + 1].holds && h !in ws[k].holds
    ensures Earned(c, ws[k], es[k], h.req, h.outcome)
  {
    hide Inv;
    var w, e := ws[k], es[k];
    RunInv(c, ws, es, k);
    assert h in Fire(c, w, e).holds by { NewHold(c, w, e, h); }
    if IsServing(e) || e.ShutdownEnd? { ServingEarned(c, w, e, h); } else { PlainEarned(c, w, e, h); }
  }

  lemma {:induction false} NewHold(c: Config, w: World, e: Event, h: Hold)
    requires Enabled(c, w, e) && h in Apply(c, w, e).holds && h !in w.holds
    ensures h in Fire(c, w, e).holds
  {
    hide Fire;
  }

  lemma {:induction false} PlainEarned(c: Config, w: World, e: Event, h: Hold)
    requires Enabled(c, w, e) && !IsServing(e) && !e.ShutdownEnd?
    requires h in Fire(c, w, e).holds && h.Deliver? && !h.outcome.Granted?
    ensures Earned(c, w, e, h.req, h.outcome)
  {
    hide Retirements;
    if e.HealthRefilled? { RetirementHolds(e.conns); }
  }

  // ------------------------------------------------------- nobody waits in vain

  /** Waking leaves a waiter only when there is neither an idle connection nor room for one more. */
  lemma {:induction false} WakeServesAll(c: Config, s: Shared)
    ensures var t := Serve(c, s).s; t.waiters == [] || (t.idle == [] && t.total >= c.maxConn)
    decreases |s.waiters|
  {
    if s.waiters != [] {
      if s.idle != [] {
        WakeServesAll(c, s.(idle := s.idle[1..], waiters := s.waiters[1..], borrowed := s.borrowed + 1));
      } else if s.total < c.maxConn {
        WakeServesAll(c, s.(total := s.total + 1, waiters := s.waiters[1..]));
      }
    }
  }

  /** The health check reserves what an open pool lacks of its minimum, and no more. */
  lemma {:induction false} RefillReachesMinimum(c: Config, w: World)
    requires ValidConfig(c) && Enabled(c, w, HealthReserve) && !w.shared.closed
    ensures var v, t := Apply(c, w, HealthReserve), w.shared.total;
      v.shared.total == (if t < c.minConn then c.minConn else t) && Refill(v.shared.total - t) in v.holds
  {
    var o := Fire(c, w, HealthReserve);
    assert o.holds[0] in o.holds;
  }

  /** It lets an idle connection go only above the minimum and after the idle timeout. */
  lemma {:induction false} IdleTimeoutRetires(c: Config, w: World, now: int)
    requires Enabled(c, w, HealthTake(now)) && !w.shared.closed && w.shared.idle != []
    ensures var item := w.shared.idle[0];
      HealthPing(item, c.idleTimeout > 0 && item.returnedAt + c.idleTimeout <= now && w.shared.total > c.minConn)
        in Apply(c, w, HealthTake(now)).holds
  {
    var o := Fire(c, w, HealthTake(now));
    assert o.holds[0] in o.holds;
  }
}

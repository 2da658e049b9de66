/**
  The pool as the source has it: one object whose counters, idle queue and
  waiter list are updated in place. Each method is one lock-held region and is
  proved to do what the corresponding function in `Pool` says, which is what
  the events of `PoolProtocol` fire; the constructor gives its initial world.
*/
module PoolClass {
  import opened Wrappers
  import opened Pool
  import P = PoolProtocol

  lemma Regroup<T>(a: seq<T>, x: T, b: seq<T>)
    ensures a + ([x] + b) == (a + [x]) + b
  {
  }

  /** A fresh pool: its warm connections are the only ones ever opened, and nobody holds anything. */
  ghost function FirstWorld(s: Shared): P.World {
    P.World(s, [], set k | 0 <= k < |s.idle| :: s.idle[k].conn, {}, [], [], 0)
  }

  lemma {:induction false} StartsProtocol(c: Config, s: Shared, conns: seq<Conn>, now: int)
    requires ValidConfig(c) && P.Distinct(conns) && s == Shared(|s.idle|, 0, s.idle, [], false)
    requires |s.idle| <= c.minConn && |s.idle| <= |conns|
    requires forall k :: 0 <= k < |s.idle| ==> s.idle[k] == Idle(conns[k], now, now)
    ensures P.Init(c, FirstWorld(s))
  {
    var w := FirstWorld(s);
    forall x | x in w.made ensures exists k :: 0 <= k < |w.shared.idle| && w.shared.idle[k].conn == x {
      var k :| 0 <= k < |s.idle| && s.idle[k].conn == x;
      assert w.shared.idle[k].conn == x;
    }
    forall j, k | 0 <= j < k < |s.idle| ensures s.idle[j].conn != s.idle[k].conn {
      assert conns[j] != conns[k];
    }
  }

  class ConnectionPool {
    const c: Config
    var total: int
    var borrowed: int
    var idle: seq<Idle>
    var asyncWaiters: seq<Waiter>
    var closed: bool

    ghost function View(): Shared
      reads this
    {
      Shared(total, borrowed, idle, asyncWaiters, closed)
    }

    /** Warm-up: connections are opened one by one until one fails or minConn are there. */
    constructor (config: Config, conns: seq<Conn>, now: int)
      requires ValidConfig(config)
      ensures c == config
      ensures View() == Shared(|idle|, 0, idle, [], false)
      ensures |idle| <= config.minConn && |idle| <= |conns|
      ensures forall k :: 0 <= k < |idle| ==> idle[k] == Idle(conns[k], now, now)
      // connections are objects of their own: with distinct ones the protocol starts here
      ensures P.Distinct(conns) ==> P.Init(c, FirstWorld(View()))
    {
      c := config;
      total, borrowed, idle, asyncWaiters, closed := 0, 0, [], [], false;
      new;
      var i := 0;
      while i < c.minConn && i < |conns|
        invariant i <= |conns| && i <= c.minConn
        invariant View() == Shared(|idle|, 0, idle, [], false) && |idle| == i
        invariant forall k :: 0 <= k < i ==> idle[k] == Idle(conns[k], now, now)
      {
        if total >= c.maxConn { break; }
        idle := idle + [Idle(conns[i], now, now)];
        total := total + 1;
        i := i + 1;
      }
      if P.Distinct(conns) { StartsProtocol(c, View(), conns, now); }
    }

    /** The erase loop shared by returnConn and expireWaiters. */
    method EraseLate(now: int, stopped: set<nat>) returns (gone: seq<Waiter>)
      modifies this`asyncWaiters
      ensures asyncWaiters == Kept(old(asyncWaiters), now, stopped)
      ensures gone == Expired(old(asyncWaiters), now, stopped)
    {
      gone := [];
      ghost var all := asyncWaiters;
      var i := 0;
      while i < |asyncWaiters|
        invariant i <= |asyncWaiters|
        invariant asyncWaiters[..i] + Kept(asyncWaiters[i..], now, stopped) == Kept(all, now, stopped)
        invariant gone + Expired(asyncWaiters[i..], now, stopped) == Expired(all, now, stopped)
        decreases |asyncWaiters| - i
      {
        var w := asyncWaiters[i];
        ghost var before := asyncWaiters;
        if Late(w, now, stopped) {
          gone := gone + [w];
          asyncWaiters := asyncWaiters[..i] + asyncWaiters[i + 1..];
          assert asyncWaiters[i..] == before[i..][1..];
          assert asyncWaiters[..i] == before[..i];
        } else {
          i := i + 1;
          assert asyncWaiters[i..] == before[i - 1..][1..];
          assert asyncWaiters[..i] == before[..i - 1] + [w];
        }
      }
      assert asyncWaiters[..i] == asyncWaiters && asyncWaiters[i..] == [];
    }

    method ReturnConn(conn: Conn, now: int, reusable: bool) returns (holds: seq<Hold>, served: seq<nat>)
      modifies this
      ensures Out(View(), holds, served) == ReturnRegion(c, old(View()), conn, now, reusable)
      ensures old(closed) || !reusable || (c.maxLifetime > 0 && conn.createdAt + c.maxLifetime <= now) ==>
        holds == [Retired(conn)] && idle == old(idle) && asyncWaiters == old(asyncWaiters)
    {
      if borrowed > 0 { borrowed := borrowed - 1; }
      if closed || PastLifetime(c, conn, now) || !reusable {
        if total > 0 { total := total - 1; }
        return [Retired(conn)], [];
      }
      var gone := EraseLate(now, {});
      if asyncWaiters != [] {
        var w := asyncWaiters[0];
        asyncWaiters := asyncWaiters[1..];
        borrowed := borrowed + 1;
        return [Deliver(w.req, Granted(conn))] + Drops(gone), [w.ticket];
      }
      idle := idle + [Idle(conn, now, now)];
      return Expirations(gone, {}), [];
    }

    /** The loop of borrow(), from taking the lock to leaving it: take an idle connection, reserve a slot, or
        give up. */
    method SyncEnter() returns (holds: seq<Hold>)
      modifies this
      ensures !old(closed) && old(idle) != [] ==> Out(View(), holds, []) == SyncTakeRegion(old(View()))
      ensures !old(closed) && old(idle) == [] && old(total) < c.maxConn ==>
        Out(View(), holds, []) == SyncReserveRegion(old(View()))
      ensures old(closed) || (old(idle) == [] && old(total) >= c.maxConn) ==> View() == old(View()) && holds == []
    {
      if closed { return []; }
      if idle != [] {
        var item := idle[0];
        idle := idle[1..];
        return [SyncPing(item)];
      }
      if total < c.maxConn {
        total := total + 1;
        return [SyncCreate];
      }
      return [];
    }

    method SyncPinged(item: Idle, now: int, pingOk: bool) returns (holds: seq<Hold>)
      modifies this
      ensures Out(View(), holds, []) == SyncPingDoneRegion(c, old(View()), item, now, pingOk)
    {
      if Alive(c, item, now, pingOk) {
        if closed { return [Retired(item.conn)]; }
        borrowed := borrowed + 1;
        return [Handle(item.conn)];
      }
      total := total - 1;
      if total < 0 { total := 0; }
      return [Retired(item.conn)];
    }

    method SyncCreated(made: Option<Conn>) returns (holds: seq<Hold>)
      modifies this
      ensures Out(View(), holds, []) == SyncCreateDoneRegion(old(View()), made)
    {
      if made.Some? {
        if closed {
          total := total - 1;
          return [Retired(made.value)];
        }
        borrowed := borrowed + 1;
        return [Handle(made.value)];
      }
      total := total - 1;
      if total < 0 { total := 0; }
      return [];
    }

    method BorrowAsync(req: nat, now: int, effective: nat, ticket: nat) returns (holds: seq<Hold>)
      modifies this
      ensures Out(View(), holds, []) == AsyncEnterRegion(c, old(View()), req, now, effective, ticket)
    {
      if closed { return [Deliver(req, PoolClosed)]; }
      if idle != [] {
        var item := idle[0];
        idle := idle[1..];
        if PastLifetime(c, item.conn, now) {
          total := total - 1;
          if total < 0 { total := 0; }
          return [Retired(item.conn), Starting(req)];
        }
        if !NeedsPing(c, item, now) {
          borrowed := borrowed + 1;
          return [Deliver(req, Granted(item.conn))];
        }
        return [AsyncPing(req, item)];
      }
      if total < c.maxConn {
        total := total + 1;
        return [AsyncCreate(req)];
      }
      if effective == 0 { return [Deliver(req, Exhausted)]; }
      asyncWaiters := asyncWaiters + [Waiter(req, ticket, now + effective)];
      return [];
    }

    method ValidationRejected(req: nat, item: Idle, now: int) returns (holds: seq<Hold>)
      modifies this
      ensures Out(View(), holds, []) == AsyncPingRejectedRegion(old(View()), req, item, now)
    {
      if closed {
        if total > 0 { total := total - 1; }
        return [Retired(item.conn), Deliver(req, Overloaded)];
      }
      idle := idle + [Idle(item.conn, now, item.lastValidated)];
      return [Deliver(req, Overloaded)];
    }

    method Validated(req: nat, item: Idle, pingOk: bool) returns (holds: seq<Hold>)
      modifies this
      ensures Out(View(), holds, []) == AsyncPingDoneRegion(old(View()), req, item, pingOk)
    {
      if closed { return [Retired(item.conn), Deliver(req, PoolClosed)]; }
      if pingOk {
        borrowed := borrowed + 1;
        return [Deliver(req, Granted(item.conn))];
      }
      return [AsyncDrop(req, item.conn)];
    }

    method ValidationFailed(req: nat, conn: Conn) returns (holds: seq<Hold>)
      modifies this
      ensures Out(View(), holds, []) == AsyncPingDropRegion(old(View()), req, conn)
    {
      total := total - 1;
      if total < 0 { total := 0; }
      return [Retired(conn), Starting(req)];
    }

    method CreationRejected(req: nat) returns (holds: seq<Hold>)
      modifies this
      ensures Out(View(), holds, []) == AsyncCreateRejectedRegion(old(View()), req)
    {
      if total > 0 { total := total - 1; }
      return [Deliver(req, Overloaded)];
    }

    method Created(req: nat, made: Option<Conn>) returns (holds: seq<Hold>)
      modifies this
      ensures Out(View(), holds, []) == AsyncCreateDoneRegion(old(View()), req, made)
    {
      if closed {
        if total > 0 { total := total - 1; }
        return (if made.Some? then [Retired(made.value)] else []) + [Deliver(req, PoolClosed)];
      }
      if made.None? {
        total := total - 1;
        if total < 0 { total := 0; }
        return [Deliver(req, ConnectFailed)];
      }
      borrowed := borrowed + 1;
      return [Deliver(req, Granted(made.value))];
    }

    method ExpireWaiters(now: int, stopped: set<nat>) returns (holds: seq<Hold>)
      modifies this
      ensures Out(View(), holds, []) == ExpireRegion(old(View()), now, stopped)
    {
      var gone := EraseLate(now, stopped);
      holds := Expirations(gone, stopped);
    }

    method WakeAsyncWaiters() returns (holds: seq<Hold>, served: seq<nat>)
      modifies this
      ensures Out(View(), holds, served) == WakeRegion(c, old(View()))
    {
      holds, served := [], [];
      if closed { return; }
      ghost var target := Serve(c, View());
      while asyncWaiters != []
        invariant !closed
        invariant var o := Serve(c, View());
          target == Out(o.s, holds + o.holds, served + o.served)
        decreases |asyncWaiters|
      {
        var w := asyncWaiters[0];
        ghost var o := Serve(c, View());
        var h: Hold;
        if idle != [] {
          h := Deliver(w.req, Granted(idle[0].conn));
          idle, asyncWaiters, borrowed := idle[1..], asyncWaiters[1..], borrowed + 1;
        } else if total < c.maxConn {
          h := AsyncCreate(w.req);
          total, asyncWaiters := total + 1, asyncWaiters[1..];
        } else {
          break;
        }
        assert var p := Serve(c, View()); o == Out(p.s, [h] + p.holds, [w.ticket] + p.served);
        Regroup(holds, h, Serve(c, View()).holds);
        Regroup(served, w.ticket, Serve(c, View()).served);
        holds, served := holds + [h], served + [w.ticket];
      }
    }

    method HealthTake(now: int) returns (holds: seq<Hold>)
      modifies this
      ensures Out(View(), holds, []) == HealthTakeRegion(c, old(View()), now)
    {
      if closed || idle == [] { return []; }
      var item := idle[0];
      idle := idle[1..];
      return [HealthPing(item, c.idleTimeout > 0 && now - item.returnedAt >= c.idleTimeout && total > c.minConn)];
    }

    method HealthInspected(item: Idle, retire: bool, now: int, pingOk: bool) returns (holds: seq<Hold>)
      modifies this
      ensures Out(View(), holds, []) == HealthDoneRegion(c, old(View()), item, retire, now, pingOk)
    {
      var alive := !retire && Alive(c, item, now, pingOk);
      if alive && !closed {
        idle := idle + [if NeedsPing(c, item, now) then item.(lastValidated := now) else item];
        return [];
      }
      total := total - 1;
      if total < 0 { total := 0; }
      return [Retired(item.conn)];
    }

    method HealthReserve() returns (holds: seq<Hold>)
      modifies this
      ensures Out(View(), holds, []) == HealthReserveRegion(c, old(View()))
    {
      if closed { return []; }
      var need := Needed(c, total);
      total := total + need;
      return [Refill(need)];
    }

    method HealthRefilled(need: nat, conns: seq<Conn>, now: int) returns (holds: seq<Hold>)
      modifies this
      ensures Out(View(), holds, []) == HealthRefilledRegion(old(View()), need, conns, now)
    {
      total := total - (need - |conns|);
      if total < 0 { total := 0; }
      holds := [];
      var i := 0;
      while i < |conns|
        invariant i <= |conns|
        invariant total == (if old(total) - (need - |conns|) < 0 then 0 else old(total) - (need - |conns|))
        invariant borrowed == old(borrowed) && asyncWaiters == old(asyncWaiters) && closed == old(closed)
        invariant closed ==> idle == old(idle) && holds + Retirements(conns[i..]) == Retirements(conns)
        invariant !closed ==> holds == [] && idle + FreshIdle(conns[i..], now) == old(idle) + FreshIdle(conns, now)
      {
        assert conns[i..][1..] == conns[i + 1..];
        if closed {
          holds := holds + [Retired(conns[i])];
        } else {
          idle := idle + [Idle(conns[i], now, now)];
        }
        i := i + 1;
      }
    }

    method BeginShutdown() returns (holds: seq<Hold>)
      modifies this
      ensures Out(View(), holds, []) == ShutdownBeginRegion(old(View()))
    {
      closed := true;
      var drained := asyncWaiters;
      asyncWaiters := [];
      return [Closing(drained)];
    }

    method CloseIdle(drained: seq<Waiter>) returns (holds: seq<Hold>)
      requires idle != []
      modifies this
      ensures Out(View(), holds, []) == ShutdownPopRegion(old(View()), drained)
    {
      var item := idle[0];
      idle := idle[1..];
      return [Closing(drained), Retired(item.conn)];
    }

    method EndShutdown(drained: seq<Waiter>) returns (holds: seq<Hold>)
      modifies this
      ensures Out(View(), holds, []) == ShutdownEndRegion(old(View()), drained)
    {
      total := borrowed;
      return Closures(drained);
    }
  }
}

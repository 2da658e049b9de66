/**
  Connection pool: the lock-held regions of the pool as functions from the
  shared state to the new shared state and the work the calling thread is left
  holding once it releases the mutex.

  Whatever lives outside the pool's own two lists is a `Hold`: a connection out
  for validation, a slot reserved for a connection being opened, a handle owned
  by a caller, a callback about to be delivered. Threads are thereby reduced to
  the holds they own, and any interleaving of threads is a sequence of regions,
  each consuming at most one hold.
*/
module Pool {
  import opened Wrappers

  datatype Config = Config(
    minConn: nat, maxConn: nat,
    idleTimeout: nat, maxLifetime: nat, validationInterval: nat)

  /** The constructor's clamping of its two bounds. */
  function MakeConfig(
    minConn: int, maxConn: int, idleTimeout: int, maxLifetime: int, validationInterval: int): (c: Config)
    ensures ValidConfig(c)
    ensures (maxConn >= 1 ==> c.maxConn == maxConn) && (maxConn < 1 ==> c.maxConn == 1)
    ensures (0 <= minConn <= c.maxConn ==> c.minConn == minConn) && (minConn > c.maxConn ==> c.minConn == c.maxConn)
    ensures idleTimeout >= 0 && maxLifetime >= 0 && validationInterval >= 0 ==>
      (c.idleTimeout, c.maxLifetime, c.validationInterval) == (idleTimeout, maxLifetime, validationInterval)
  {
    var hi := if maxConn < 1 then 1 else maxConn;
    var lo := if minConn < 0 then 0 else minConn;
    Config(if lo > hi then hi else lo, hi, Clamp(idleTimeout), Clamp(maxLifetime), Clamp(validationInterval))
  }

  function Clamp(x: int): nat { if x < 0 then 0 else x }

  predicate ValidConfig(c: Config) { 1 <= c.maxConn && c.minConn <= c.maxConn }

  datatype Conn = Conn(id: nat, createdAt: int)
  datatype Idle = Idle(conn: Conn, returnedAt: int, lastValidated: int)

  /** A queued request; `ticket` numbers the waiters in the order they were enqueued. */
  datatype Waiter = Waiter(req: nat, ticket: nat, deadline: int)

  datatype Outcome =
    | Granted(conn: Conn) | PoolClosed | Exhausted | Stopped | Overloaded | ConnectFailed

  datatype Shared = Shared(
    total: int, borrowed: int, idle: seq<Idle>, waiters: seq<Waiter>, closed: bool)

  datatype Hold =
    | Starting(req: nat)                      // borrowAsync entered, lock not yet taken
    | SyncPing(item: Idle)                    // borrow() validating off the lock
    | SyncCreate                              // borrow() opening into a reserved slot
    | AsyncPing(req: nat, item: Idle)         // validation task of borrowAsync
    | AsyncDrop(req: nat, conn: Conn)         // its ping failed, slot not yet given back
    | AsyncCreate(req: nat)                   // creation task with a reserved slot
    | HealthPing(item: Idle, retire: bool)    // healthCheck inspecting a connection
    | Refill(need: nat)                       // healthCheck opening `need` connections
    | Closing(drained: seq<Waiter>)           // shutdown, with the waiters it took
    | Handle(conn: Conn)                      // a handle owned by a caller
    | Deliver(req: nat, outcome: Outcome)     // a callback about to be delivered
    | Retired(conn: Conn)                     // closed
    | Dropped(req: nat)                       // a waiter destroyed with its callback uncalled

  /** New shared state, what the thread holds afterwards, and the tickets served. */
  datatype Out = Out(s: Shared, holds: seq<Hold>, served: seq<nat>)

  // ---------------------------------------------------------------- helpers

  predicate PastLifetime(c: Config, conn: Conn, now: int) {
    c.maxLifetime > 0 && now - conn.createdAt >= c.maxLifetime
  }

  predicate NeedsPing(c: Config, item: Idle, now: int) {
    c.validationInterval <= 0 || now - item.lastValidated >= c.validationInterval
  }

  predicate Alive(c: Config, item: Idle, now: int, pingOk: bool) {
    !PastLifetime(c, item.conn, now) && (!NeedsPing(c, item, now) || pingOk)
  }

  function Decrement(total: int): int { if total - 1 < 0 then 0 else total - 1 }

  function DecrementIfPositive(total: int): int { if total > 0 then total - 1 else total }

  predicate Late(w: Waiter, now: int, stopped: set<nat>) { w.deadline <= now || w.req in stopped }

  function Kept(ws: seq<Waiter>, now: int, stopped: set<nat>): seq<Waiter> {
    if ws == [] then []
    else (if Late(ws[0], now, stopped) then [] else [ws[0]]) + Kept(ws[1..], now, stopped)
  }

  function Expired(ws: seq<Waiter>, now: int, stopped: set<nat>): seq<Waiter> {
    if ws == [] then []
    else (if Late(ws[0], now, stopped) then [ws[0]] else []) + Expired(ws[1..], now, stopped)
  }

  function Expirations(ws: seq<Waiter>, stopped: set<nat>): seq<Hold> {
    if ws == [] then []
    else [Deliver(ws[0].req, if ws[0].req in stopped then Stopped else Exhausted)] + Expirations(ws[1..], stopped)
  }

  function Drops(ws: seq<Waiter>): seq<Hold> {
    if ws == [] then [] else [Dropped(ws[0].req)] + Drops(ws[1..])
  }

  function Closures(ws: seq<Waiter>): seq<Hold> {
    if ws == [] then [] else [Deliver(ws[0].req, PoolClosed)] + Closures(ws[1..])
  }

  function FreshIdle(conns: seq<Conn>, now: int): seq<Idle> {
    if conns == [] then [] else [Idle(conns[0], now, now)] + FreshIdle(conns[1..], now)
  }

  function Retirements(conns: seq<Conn>): seq<Hold> {
    if conns == [] then [] else [Retired(conns[0])] + Retirements(conns[1..])
  }

  // ------------------------------------------------------- lock-held regions

  /** State::returnConn. A hand-off skips the callbacks of the waiters expired by the same call. */
  function ReturnRegion(c: Config, s: Shared, conn: Conn, now: int, reusable: bool): Out {
    var borrowed := DecrementIfPositive(s.borrowed);
    if s.closed || PastLifetime(c, conn, now) || !reusable then
      Out(s.(borrowed := borrowed, total := DecrementIfPositive(s.total)), [Retired(conn)], [])
    else
      var kept := Kept(s.waiters, now, {});
      var gone := Expired(s.waiters, now, {});
      if kept != [] then
        Out(s.(borrowed := borrowed + 1, waiters := kept[1..]),
            [Deliver(kept[0].req, Granted(conn))] + Drops(gone), [kept[0].ticket])
      else
        Out(s.(borrowed := borrowed, waiters := [], idle := s.idle + [Idle(conn, now, now)]),
            Expirations(gone, {}), [])
  }

  /** borrow(), top of the loop with an idle connection available. */
  function SyncTakeRegion(s: Shared): Out
    requires !s.closed && s.idle != []
  {
    Out(s.(idle := s.idle[1..]), [SyncPing(s.idle[0])], [])
  }

  /** borrow(), after the ping. */
  function SyncPingDoneRegion(c: Config, s: Shared, item: Idle, now: int, pingOk: bool): Out {
    if Alive(c, item, now, pingOk) then
      if s.closed then Out(s, [Retired(item.conn)], [])
      else Out(s.(borrowed := s.borrowed + 1), [Handle(item.conn)], [])
    else
      Out(s.(total := Decrement(s.total)), [Retired(item.conn)], [])
  }

  function SyncReserveRegion(s: Shared): Out {
    Out(s.(total := s.total + 1), [SyncCreate], [])
  }

  /** borrow(), after opening. Closing a late connection decrements without a clamp. */
  function SyncCreateDoneRegion(s: Shared, made: Option<Conn>): Out {
    match made
    case Some(conn) =>
      if s.closed then Out(s.(total := s.total - 1), [Retired(conn)], [])
      else Out(s.(borrowed := s.borrowed + 1), [Handle(conn)], [])
    case None =>
      Out(s.(total := Decrement(s.total)), [], [])
  }

  /** borrowAsync() under the lock; `ticket` is the next free one. */
  function AsyncEnterRegion(c: Config, s: Shared, req: nat, now: int, effective: nat, ticket: nat): Out {
    if s.closed then Out(s, [Deliver(req, PoolClosed)], [])
    else if s.idle != [] then
      var item := s.idle[0];
      var rest := s.(idle := s.idle[1..]);
      if PastLifetime(c, item.conn, now) then
        Out(rest.(total := Decrement(s.total)), [Retired(item.conn), Starting(req)], [])
      else if !NeedsPing(c, item, now) then
        Out(rest.(borrowed := s.borrowed + 1), [Deliver(req, Granted(item.conn))], [])
      else
        Out(rest, [AsyncPing(req, item)], [])
    else if s.total < c.maxConn then
      Out(s.(total := s.total + 1), [AsyncCreate(req)], [])
    else if effective == 0 then
      Out(s, [Deliver(req, Exhausted)], [])
    else
      Out(s.(waiters := s.waiters + [Waiter(req, ticket, now + effective)]), [], [])
  }

  /** The executor refused the validation task. */
  function AsyncPingRejectedRegion(s: Shared, req: nat, item: Idle, now: int): Out {
    if s.closed then
      Out(s.(total := DecrementIfPositive(s.total)), [Retired(item.conn), Deliver(req, Overloaded)], [])
    else
      Out(s.(idle := s.idle + [Idle(item.conn, now, item.lastValidated)]), [Deliver(req, Overloaded)], [])
  }

  /** First locked block of the validation task. */
  function AsyncPingDoneRegion(s: Shared, req: nat, item: Idle, pingOk: bool): Out {
    if s.closed then Out(s, [Retired(item.conn), Deliver(req, PoolClosed)], [])
    else if pingOk then Out(s.(borrowed := s.borrowed + 1), [Deliver(req, Granted(item.conn))], [])
    else Out(s, [AsyncDrop(req, item.conn)], [])
  }

  /** Second locked block of the validation task; the request then starts over. */
  function AsyncPingDropRegion(s: Shared, req: nat, conn: Conn): Out {
    Out(s.(total := Decrement(s.total)), [Retired(conn), Starting(req)], [])
  }

  function AsyncCreateRejectedRegion(s: Shared, req: nat): Out {
    Out(s.(total := DecrementIfPositive(s.total)), [Deliver(req, Overloaded)], [])
  }

  function AsyncCreateDoneRegion(s: Shared, req: nat, made: Option<Conn>): Out {
    if s.closed then
      Out(s.(total := DecrementIfPositive(s.total)),
          (if made.Some? then [Retired(made.value)] else []) + [Deliver(req, PoolClosed)], [])
    else
      match made
      case None => Out(s.(total := Decrement(s.total)), [Deliver(req, ConnectFailed)], [])
      case Some(conn) => Out(s.(borrowed := s.borrowed + 1), [Deliver(req, Granted(conn))], [])
  }

  function ExpireRegion(s: Shared, now: int, stopped: set<nat>): Out {
    Out(s.(waiters := Kept(s.waiters, now, stopped)),
        Expirations(Expired(s.waiters, now, stopped), stopped), [])
  }

  /** wakeAsyncWaiters: serve from idle connections, then from free slots, in queue order. */
  function WakeRegion(c: Config, s: Shared): Out {
    if s.closed then Out(s, [], []) else Serve(c, s)
  }

  function Serve(c: Config, s: Shared): Out
    decreases |s.waiters|
  {
    if s.waiters == [] then Out(s, [], [])
    else
      var w := s.waiters[0];
      if s.idle != [] then
        var o := Serve(c, s.(idle := s.idle[1..], waiters := s.waiters[1..], borrowed := s.borrowed + 1));
        Out(o.s, [Deliver(w.req, Granted(s.idle[0].conn))] + o.holds, [w.ticket] + o.served)
      else if s.total < c.maxConn then
        var o := Serve(c, s.(total := s.total + 1, waiters := s.waiters[1..]));
        Out(o.s, [AsyncCreate(w.req)] + o.holds, [w.ticket] + o.served)
      else Out(s, [], [])
  }

  function HealthTakeRegion(c: Config, s: Shared, now: int): Out {
    if s.closed || s.idle == [] then Out(s, [], [])
    else
      var item := s.idle[0];
      var retire := c.idleTimeout > 0 && now - item.returnedAt >= c.idleTimeout && s.total > c.minConn;
      Out(s.(idle := s.idle[1..]), [HealthPing(item, retire)], [])
  }

  function HealthDoneRegion(c: Config, s: Shared, item: Idle, retire: bool, now: int, pingOk: bool): Out {
    if !retire && Alive(c, item, now, pingOk) && !s.closed then
      Out(s.(idle := s.idle + [if NeedsPing(c, item, now) then item.(lastValidated := now) else item]), [], [])
    else
      Out(s.(total := Decrement(s.total)), [Retired(item.conn)], [])
  }

  function Needed(c: Config, total: int): nat {
    var want := Clamp(c.minConn - total);
    var room := Clamp(c.maxConn - total);
    if want < room then want else room
  }

  function HealthReserveRegion(c: Config, s: Shared): Out {
    if s.closed then Out(s, [], [])
    else Out(s.(total := s.total + Needed(c, s.total)), [Refill(Needed(c, s.total))], [])
  }

  function HealthRefilledRegion(s: Shared, need: nat, conns: seq<Conn>, now: int): Out {
    var t := s.total - (need - |conns|);
    var total := if t < 0 then 0 else t;
    if s.closed then Out(s.(total := total), Retirements(conns), [])
    else Out(s.(total := total, idle := s.idle + FreshIdle(conns, now)), [], [])
  }

  function ShutdownBeginRegion(s: Shared): Out {
    Out(s.(closed := true, waiters := []), [Closing(s.waiters)], [])
  }

  function ShutdownPopRegion(s: Shared, drained: seq<Waiter>): Out
    requires s.idle != []
  {
    Out(s.(idle := s.idle[1..]), [Closing(drained), Retired(s.idle[0].conn)], [])
  }

  function ShutdownEndRegion(s: Shared, drained: seq<Waiter>): Out {
    Out(s.(total := s.borrowed), Closures(drained), [])
  }
}

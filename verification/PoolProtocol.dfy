/**
  The pool under every interleaving: a world is the shared state plus all
  holds, an event is one lock-held region (or one delivery) by some thread, and
  a run is any sequence of enabled events. Ledgers add up what holds own, so
  that each region only has to balance locally.
*/
module PoolProtocol {
  import opened Wrappers
  import opened Pool

  // ----------------------------------------------------------------- ledger

  function One(b: bool): int { if b then 1 else 0 }

  /** Pool slots a hold accounts for. */
  function SlotsOf(h: Hold): int {
    if h.Refill? then h.need
    else One(h.SyncPing? || h.SyncCreate? || h.AsyncPing? || h.AsyncDrop? || h.AsyncCreate? || h.HealthPing? ||
             IsHandle(h))
  }

  /** A handle: delivered, or about to be. */
  predicate IsHandle(h: Hold) { h.Handle? || (h.Deliver? && h.outcome.Granted?) }

  function HandlesOf(h: Hold): int { One(IsHandle(h)) }

  /** Does the hold own connection x? */
  function ConnOf(h: Hold, x: Conn): int {
    One(if h.SyncPing? || h.AsyncPing? || h.HealthPing? then h.item.conn == x
        else if h.AsyncDrop? || h.Handle? || h.Retired? then h.conn == x
        else h.Deliver? && h.outcome.Granted? && h.outcome.conn == x)
  }

  /** How often does the hold carry request r? */
  function ReqOf(h: Hold, r: nat): int {
    if h.Closing? then Queued(h.drained, r)
    else One((h.Starting? || h.AsyncPing? || h.AsyncDrop? || h.AsyncCreate? || h.Deliver? || h.Dropped?) && h.req == r)
  }

  function DropOf(h: Hold, r: nat): int { One(h.Dropped? && h.req == r) }

  function Queued(ws: seq<Waiter>, r: nat): nat {
    if ws == [] then 0 else One(ws[0].req == r) + Queued(ws[1..], r)
  }

  function IdleIn(items: seq<Idle>, x: Conn): nat {
    if items == [] then 0 else One(items[0].conn == x) + IdleIn(items[1..], x)
  }

  function Times<T(==)>(xs: seq<T>, x: T): nat {
    if xs == [] then 0 else One(xs[0] == x) + Times(xs[1..], x)
  }

  function SlotsIn(hs: seq<Hold>): nat { if hs == [] then 0 else SlotsOf(hs[0]) + SlotsIn(hs[1..]) }
  function HandlesIn(hs: seq<Hold>): nat { if hs == [] then 0 else HandlesOf(hs[0]) + HandlesIn(hs[1..]) }
  function ConnIn(hs: seq<Hold>, x: Conn): nat { if hs == [] then 0 else ConnOf(hs[0], x) + ConnIn(hs[1..], x) }
  function ReqIn(hs: seq<Hold>, r: nat): nat { if hs == [] then 0 else ReqOf(hs[0], r) + ReqIn(hs[1..], r) }
  function DropIn(hs: seq<Hold>, r: nat): nat { if hs == [] then 0 else DropOf(hs[0], r) + DropIn(hs[1..], r) }

  /** The five sums over a list of holds, probed at one connection and one request. */
  predicate Sums(hs: seq<Hold>, x: Conn, r: nat, slots: int, handles: int, conns: int, reqs: int, drops: int) {
    && SlotsIn(hs) == slots && HandlesIn(hs) == handles && ConnIn(hs, x) == conns
    && ReqIn(hs, r) == reqs && DropIn(hs, r) == drops
  }

  lemma {:induction false} SumCons(h: Hold, hs: seq<Hold>, x: Conn, r: nat)
    ensures Sums([h] + hs, x, r, SlotsOf(h) + SlotsIn(hs), HandlesOf(h) + HandlesIn(hs), ConnOf(h, x) + ConnIn(hs, x),
                 ReqOf(h, r) + ReqIn(hs, r), DropOf(h, r) + DropIn(hs, r))
  {
    assert ([h] + hs)[1..] == hs;
  }

  lemma {:induction false} SumAppend(a: seq<Hold>, b: seq<Hold>, x: Conn, r: nat)
    ensures Sums(a + b, x, r, SlotsIn(a) + SlotsIn(b), HandlesIn(a) + HandlesIn(b), ConnIn(a, x) + ConnIn(b, x),
                 ReqIn(a, r) + ReqIn(b, r), DropIn(a, r) + DropIn(b, r))
  {
    if a == [] {
      assert a + b == b;
    } else {
      assert a + b == [a[0]] + (a[1..] + b);
      SumCons(a[0], a[1..] + b, x, r);
      SumAppend(a[1..], b, x, r);
    }
  }

  lemma {:induction false} SumOne(h: Hold, x: Conn, r: nat)
    ensures Sums([h], x, r, SlotsOf(h), HandlesOf(h), ConnOf(h, x), ReqOf(h, r), DropOf(h, r))
  {
    assert [h] == [h] + [];
    SumCons(h, [], x, r);
  }

  lemma {:induction false} SumTwo(g: Hold, h: Hold, x: Conn, r: nat)
    ensures Sums([g, h], x, r, SlotsOf(g) + SlotsOf(h), HandlesOf(g) + HandlesOf(h), ConnOf(g, x) + ConnOf(h, x),
                 ReqOf(g, r) + ReqOf(h, r), DropOf(g, r) + DropOf(h, r))
  {
    assert [g, h] == [g] + [h];
    SumCons(g, [h], x, r);
    SumOne(h, x, r);
  }

  lemma {:induction false} QueuedAppend(a: seq<Waiter>, b: seq<Waiter>, r: nat)
    ensures Queued(a + b, r) == Queued(a, r) + Queued(b, r)
  {
    if a == [] {
      assert a + b == b;
    } else {
      assert (a + b)[1..] == a[1..] + b;
      QueuedAppend(a[1..], b, r);
    }
  }

  lemma {:induction false} IdleAppend(a: seq<Idle>, b: seq<Idle>, x: Conn)
    ensures IdleIn(a + b, x) == IdleIn(a, x) + IdleIn(b, x)
  {
    if a == [] {
      assert a + b == b;
    } else {
      assert (a + b)[1..] == a[1..] + b;
      IdleAppend(a[1..], b, x);
    }
  }

  lemma {:induction false} TimesAppend<T>(a: seq<T>, b: seq<T>, x: T)
    ensures Times(a + b, x) == Times(a, x) + Times(b, x)
  {
    if a == [] {
      assert a + b == b;
    } else {
      assert (a + b)[1..] == a[1..] + b;
      TimesAppend(a[1..], b, x);
    }
  }

  // --------------------------------------------------- worlds, events, runs

  datatype World = World(
    shared: Shared, holds: seq<Hold>,
    made: set<Conn>,            // every connection ever opened
    issued: set<nat>,           // every request ever made
    log: seq<nat>,              // requests in the order their callbacks ran
    served: seq<nat>,           // tickets in the order waiters were given a connection or a slot
    nextTicket: nat)

  datatype Event =
    | SyncTake
    | SyncPingDone(i: nat, now: int, ok: bool)
    | SyncReserve
    | SyncCreateDone(i: nat, result: Option<Conn>)
    | Request(req: nat)
    | AsyncStop(i: nat)
    | AsyncEnter(i: nat, now: int, effective: nat)
    | AsyncPingRejected(i: nat, now: int)
    | AsyncPingDone(i: nat, ok: bool)
    | AsyncPingDrop(i: nat)
    | AsyncCreateRejected(i: nat)
    | AsyncCreateDone(i: nat, result: Option<Conn>)
    | Expire(now: int, stopped: set<nat>)
    | Return(i: nat, now: int, reusable: bool)
    | Wake
    | HealthTake(now: int)
    | HealthDone(i: nat, now: int, ok: bool)
    | HealthReserve
    | HealthRefilled(i: nat, now: int, conns: seq<Conn>)
    | ShutdownBegin
    | ShutdownPop(i: nat)
    | ShutdownEnd(i: nat)
    | Finish(i: nat)

  predicate UsesHold(e: Event) {
    !(e.SyncTake? || e.SyncReserve? || e.Request? || e.Expire? || e.Wake? ||
      e.HealthTake? || e.HealthReserve? || e.ShutdownBegin?)
  }

  /** The hold the event's thread owns has the right kind. */
  predicate Matches(e: Event, h: Hold)
    requires UsesHold(e)
  {
    match e
    case SyncPingDone(_, _, _) => h.SyncPing?
    case SyncCreateDone(_, _) => h.SyncCreate?
    case AsyncStop(_) => h.Starting?
    case AsyncEnter(_, _, _) => h.Starting?
    case AsyncPingRejected(_, _) => h.AsyncPing?
    case AsyncPingDone(_, _) => h.AsyncPing?
    case AsyncPingDrop(_) => h.AsyncDrop?
    case AsyncCreateRejected(_) => h.AsyncCreate?
    case AsyncCreateDone(_, _) => h.AsyncCreate?
    case Return(_, _, _) => h.Handle?
    case HealthDone(_, _, _) => h.HealthPing?
    case HealthRefilled(_, _, conns) => h.Refill? && |conns| <= h.need
    case ShutdownPop(_) => h.Closing?
    case ShutdownEnd(_) => h.Closing?
    case Finish(_) => h.Deliver?
  }

  /** Connections the driver opened during the event. */
  function Opens(e: Event): seq<Conn> {
    match e
    case SyncCreateDone(_, Some(conn)) => [conn]
    case AsyncCreateDone(_, Some(conn)) => [conn]
    case HealthRefilled(_, _, conns) => conns
    case _ => []
  }

  predicate Distinct<T(==)>(xs: seq<T>) { forall i, j :: 0 <= i < j < |xs| ==> xs[i] != xs[j] }

  predicate Enabled(c: Config, w: World, e: Event) {
    && (UsesHold(e) ==> e.i < |w.holds| && Matches(e, w.holds[e.i]))
    && Distinct(Opens(e))
    && (forall conn <- Opens(e) :: conn !in w.made)
    && (match e
        case SyncTake => !w.shared.closed && w.shared.idle != []
        case SyncReserve => !w.shared.closed && w.shared.idle == [] && w.shared.total < c.maxConn
        case Request(req) => req !in w.issued
        case ShutdownPop(_) => w.shared.idle != []
        case ShutdownEnd(_) => w.shared.idle == []
        case _ => true)
  }

  function Taken(w: World, e: Event): seq<Hold>
    requires UsesHold(e) ==> e.i < |w.holds|
  {
    if UsesHold(e) then [w.holds[e.i]] else []
  }

  function Fire(c: Config, w: World, e: Event): Out
    requires Enabled(c, w, e)
  {
    var s := w.shared;
    match e
    case SyncTake => SyncTakeRegion(s)
    case SyncPingDone(i, now, ok) => SyncPingDoneRegion(c, s, w.holds[i].item, now, ok)
    case SyncReserve => SyncReserveRegion(s)
    case SyncCreateDone(i, result) => SyncCreateDoneRegion(s, result)
    case Request(req) => Out(s, [Starting(req)], [])
    case AsyncStop(i) => Out(s, [Deliver(w.holds[i].req, Stopped)], [])
    case AsyncEnter(i, now, effective) => AsyncEnterRegion(c, s, w.holds[i].req, now, effective, w.nextTicket)
    case AsyncPingRejected(i, now) => AsyncPingRejectedRegion(s, w.holds[i].req, w.holds[i].item, now)
    case AsyncPingDone(i, ok) => AsyncPingDoneRegion(s, w.holds[i].req, w.holds[i].item, ok)
    case AsyncPingDrop(i) => AsyncPingDropRegion(s, w.holds[i].req, w.holds[i].conn)
    case AsyncCreateRejected(i) => AsyncCreateRejectedRegion(s, w.holds[i].req)
    case AsyncCreateDone(i, result) => AsyncCreateDoneRegion(s, w.holds[i].req, result)
    case Expire(now, stopped) => ExpireRegion(s, now, stopped)
    case Return(i, now, reusable) => ReturnRegion(c, s, w.holds[i].conn, now, reusable)
    case Wake => WakeRegion(c, s)
    case HealthTake(now) => HealthTakeRegion(c, s, now)
    case HealthDone(i, now, ok) => HealthDoneRegion(c, s, w.holds[i].item, w.holds[i].retire, now, ok)
    case HealthReserve => HealthReserveRegion(c, s)
    case HealthRefilled(i, now, conns) => HealthRefilledRegion(s, w.holds[i].need, conns, now)
    case ShutdownBegin => ShutdownBeginRegion(s)
    case ShutdownPop(i) => ShutdownPopRegion(s, w.holds[i].drained)
    case ShutdownEnd(i) => ShutdownEndRegion(s, w.holds[i].drained)
    case Finish(i) => Out(s, if w.holds[i].outcome.Granted? then [Handle(w.holds[i].outcome.conn)] else [], [])
  }

  function Others(w: World, e: Event): seq<Hold>
    requires UsesHold(e) ==> e.i < |w.holds|
  {
    if UsesHold(e) then w.holds[..e.i] + w.holds[e.i + 1..] else w.holds
  }

  /** The world after a region with outcome `o`. */
  function Commit(w: World, e: Event, o: Out): World
    requires UsesHold(e) ==> e.i < |w.holds|
    requires e.Finish? ==> w.holds[e.i].Deliver?
  {
    World(o.s, Others(w, e) + o.holds,
          w.made + (set conn | conn in Opens(e)),
          if e.Request? then w.issued + {e.req} else w.issued,
          if e.Finish? then w.log + [w.holds[e.i].req] else w.log,
          w.served + o.served,
          if |o.s.waiters| > |w.shared.waiters| then w.nextTicket + 1 else w.nextTicket)
  }

  function Apply(c: Config, w: World, e: Event): World
    requires Enabled(c, w, e)
  {
    Commit(w, e, Fire(c, w, e))
  }

  /** The warm-up loop of the constructor: at most minConn connections, all idle. */
  predicate Init(c: Config, w: World) {
    && ValidConfig(c)
    && w.shared.total == |w.shared.idle| <= c.minConn
    && w.shared.borrowed == 0 && w.shared.waiters == [] && !w.shared.closed
    && w.holds == []
    && (forall k :: 0 <= k < |w.shared.idle| ==> w.shared.idle[k].conn in w.made)
    && (forall j, k :: 0 <= j < k < |w.shared.idle| ==> w.shared.idle[j].conn != w.shared.idle[k].conn)
    && (forall x <- w.made :: exists k :: 0 <= k < |w.shared.idle| && w.shared.idle[k].conn == x)
    && w.issued == {} && w.log == [] && w.served == [] && w.nextTicket == 0
  }

  predicate IsRun(c: Config, ws: seq<World>, es: seq<Event>) {
    && |ws| == |es| + 1
    && Init(c, ws[0])
    && forall k :: 0 <= k < |es| ==> Enabled(c, ws[k], es[k]) && ws[k + 1] == Apply(c, ws[k], es[k])
  }

  // ------------------------------------------------------------- invariants

  predicate Sorted(xs: seq<nat>) { forall i, j :: 0 <= i < j < |xs| ==> xs[i] < xs[j] }

  predicate InOrder(ws: seq<Waiter>) { forall i, j :: 0 <= i < j < |ws| ==> ws[i].ticket < ws[j].ticket }

  predicate Before(served: seq<nat>, ws: seq<Waiter>) {
    forall t, w :: t in served && w in ws ==> t < w.ticket
  }

  predicate SlotsExact(c: Config, w: World) {
    !w.shared.closed ==>
      w.shared.total == |w.shared.idle| + SlotsIn(w.holds) && w.shared.total <= c.maxConn
  }

  predicate HandlesExact(w: World) { w.shared.borrowed == HandlesIn(w.holds) }

  /** Connection x is in exactly one place once opened, in none before. */
  predicate ConnOnce(w: World, x: Conn) {
    IdleIn(w.shared.idle, x) + ConnIn(w.holds, x) == One(x in w.made)
  }

  /** Request r is in exactly one place, its past completions included. */
  predicate ReqOnce(w: World, r: nat) {
    Queued(w.shared.waiters, r) + ReqIn(w.holds, r) + Times(w.log, r) == One(r in w.issued)
  }

  predicate Order(w: World) {
    && InOrder(w.shared.waiters) && Sorted(w.served) && Before(w.served, w.shared.waiters)
    && (forall x <- w.shared.waiters :: x.ticket < w.nextTicket)
    && (forall t <- w.served :: t < w.nextTicket)
  }

  ghost predicate Inv(c: Config, w: World) {
    && ValidConfig(c) && SlotsExact(c, w) && HandlesExact(w) && Order(w)
    && (forall x :: ConnOnce(w, x))
    && (forall r :: ReqOnce(w, r))
    && (w.shared.closed ==> w.shared.waiters == [])
    && (forall h <- w.holds :: h.Closing? ==> w.shared.closed)
  }

  /** What a region may assume of the counters, given that everybody else's holds are counted too. */
  predicate Covered(c: Config, s: Shared, taken: seq<Hold>) {
    && ValidConfig(c)
    && (!s.closed ==> |s.idle| + SlotsIn(taken) <= s.total <= c.maxConn)
    && HandlesIn(taken) <= s.borrowed
  }

  /** Slots and handles: what a region adds to the counters it finds in its own hold, and leaves in its new ones. */
  predicate Counted(c: Config, s: Shared, taken: seq<Hold>, o: Out) {
    && (s.closed ==> o.s.closed)
    && (!o.s.closed ==>
          && o.s.total - |o.s.idle| - SlotsIn(o.holds) == s.total - |s.idle| - SlotsIn(taken)
          && o.s.total <= c.maxConn)
    && o.s.borrowed - HandlesIn(o.holds) == s.borrowed - HandlesIn(taken)
    && (o.s.closed && (s.closed ==> s.waiters == []) ==> o.s.waiters == [])
  }

  /** Connection x stays somewhere. */
  predicate Placed(s: Shared, taken: seq<Hold>, opens: seq<Conn>, o: Out, x: Conn) {
    IdleIn(o.s.idle, x) + ConnIn(o.holds, x) == IdleIn(s.idle, x) + ConnIn(taken, x) + Times(opens, x)
  }

  /** Request r stays somewhere. */
  predicate Carried(s: Shared, taken: seq<Hold>, o: Out, r: nat) {
    Queued(o.s.waiters, r) + ReqIn(o.holds, r) == Queued(s.waiters, r) + ReqIn(taken, r)
  }

  predicate Balanced(c: Config, s: Shared, taken: seq<Hold>, opens: seq<Conn>, o: Out, x: Conn, r: nat) {
    Counted(c, s, taken, o) && Placed(s, taken, opens, o, x) && Carried(s, taken, o, r)
  }

  predicate InQueue(t: nat, ws: seq<Waiter>) { exists x :: x in ws && x.ticket == t }

  /** Queue order is kept: served waiters come from the front, and at most one waiter joins, with the next ticket. */
  predicate Queues(s: Shared, o: Out, ticket: nat) {
    InOrder(s.waiters) && (forall x <- s.waiters :: x.ticket < ticket) ==>
      && InOrder(o.s.waiters)
      && Sorted(o.served)
      && Before(o.served, o.s.waiters)
      && (forall t <- o.served :: InQueue(t, s.waiters))
      && (forall x <- o.s.waiters :: x in s.waiters || (x.ticket == ticket && |o.s.waiters| > |s.waiters|))
  }

  // ------------------------------------------------------ lists of waiters

  lemma {:induction false} Partition(ws: seq<Waiter>, now: int, stopped: set<nat>)
    ensures |Kept(ws, now, stopped)| + |Expired(ws, now, stopped)| == |ws|
    ensures forall x <- Kept(ws, now, stopped) :: x in ws && !Late(x, now, stopped)
    ensures forall x <- Expired(ws, now, stopped) :: x in ws && Late(x, now, stopped)
  {
    if ws != [] {
      Partition(ws[1..], now, stopped);
      assert ws == [ws[0]] + ws[1..];
    }
  }

  lemma {:induction false} PartitionCounts(ws: seq<Waiter>, now: int, stopped: set<nat>, r: nat)
    ensures Queued(Kept(ws, now, stopped), r) + Queued(Expired(ws, now, stopped), r) == Queued(ws, r)
  {
    if ws != [] {
      var rest := ws[1..];
      PartitionCounts(rest, now, stopped, r);
      if Late(ws[0], now, stopped) {
        assert Kept(ws, now, stopped) == Kept(rest, now, stopped);
        assert Expired(ws, now, stopped)[1..] == Expired(rest, now, stopped);
      } else {
        assert Expired(ws, now, stopped) == Expired(rest, now, stopped);
        assert Kept(ws, now, stopped)[1..] == Kept(rest, now, stopped);
      }
    }
  }

  lemma {:induction false} KeptInOrder(ws: seq<Waiter>, now: int, stopped: set<nat>)
    requires InOrder(ws)
    ensures InOrder(Kept(ws, now, stopped))
  {
    if ws != [] {
      var rest, kept := ws[1..], Kept(ws[1..], now, stopped);
      KeptInOrder(rest, now, stopped);
      Partition(rest, now, stopped);
      forall x <- kept
        ensures ws[0].ticket < x.ticket
      {
        assert x in rest;
      }
    }
  }

  lemma {:induction false} SumExpirations(ws: seq<Waiter>, stopped: set<nat>, x: Conn, r: nat)
    ensures Sums(Expirations(ws, stopped), x, r, 0, 0, 0, Queued(ws, r), 0)
  {
    if ws != [] {
      SumExpirations(ws[1..], stopped, x, r);
      SumCons(Expirations(ws, stopped)[0], Expirations(ws[1..], stopped), x, r);
    }
  }

  lemma {:induction false} SumDrops(ws: seq<Waiter>, x: Conn, r: nat)
    ensures Sums(Drops(ws), x, r, 0, 0, 0, Queued(ws, r), Queued(ws, r))
  {
    if ws != [] {
      SumDrops(ws[1..], x, r);
      SumCons(Dropped(ws[0].req), Drops(ws[1..]), x, r);
    }
  }

  lemma {:induction false} SumClosures(ws: seq<Waiter>, x: Conn, r: nat)
    ensures Sums(Closures(ws), x, r, 0, 0, 0, Queued(ws, r), 0)
  {
    if ws != [] {
      SumClosures(ws[1..], x, r);
      SumCons(Deliver(ws[0].req, PoolClosed), Closures(ws[1..]), x, r);
    }
  }

  lemma {:induction false} SumRetirements(conns: seq<Conn>, x: Conn, r: nat)
    ensures Sums(Retirements(conns), x, r, 0, 0, Times(conns, x), 0, 0)
  {
    if conns != [] {
      SumRetirements(conns[1..], x, r);
      SumCons(Retired(conns[0]), Retirements(conns[1..]), x, r);
    }
  }

  lemma {:induction false} FreshIdleConns(conns: seq<Conn>, now: int, x: Conn)
    ensures |FreshIdle(conns, now)| == |conns|
    ensures IdleIn(FreshIdle(conns, now), x) == Times(conns, x)
  {
    if conns != [] {
      FreshIdleConns(conns[1..], now, x);
      assert FreshIdle(conns, now)[1..] == FreshIdle(conns[1..], now);
    }
  }

  // --------------------------------------------------------- region lemmas

  /** Regions that leave the queue alone keep its order. */
  lemma {:induction false} SameQueue(s: Shared, o: Out, ticket: nat)
    requires o.s.waiters == s.waiters && o.served == []
    ensures Queues(s, o, ticket)
  {
  }

  lemma {:induction false} ReturnBalanced(c: Config, s: Shared, conn: Conn, now: int, reusable: bool, x: Conn, r: nat)
    requires Covered(c, s, [Handle(conn)])
    ensures Balanced(c, s, [Handle(conn)], [], ReturnRegion(c, s, conn, now, reusable), x, r)
  {
    SumOne(Handle(conn), x, r);
    if s.closed || PastLifetime(c, conn, now) || !reusable {
      SumOne(Retired(conn), x, r);
    } else {
      var kept, gone := Kept(s.waiters, now, {}), Expired(s.waiters, now, {});
      PartitionCounts(s.waiters, now, {}, r);
      if kept != [] {
        SumDrops(gone, x, r);
        SumCons(Deliver(kept[0].req, Granted(conn)), Drops(gone), x, r);
      } else {
        SumExpirations(gone, {}, x, r);
        IdleAppend(s.idle, [Idle(conn, now, now)], x);
      }
    }
  }

  lemma {:induction false} ReturnQueues(c: Config, s: Shared, conn: Conn, now: int, reusable: bool, ticket: nat)
    ensures Queues(s, ReturnRegion(c, s, conn, now, reusable), ticket)
  {
    var o := ReturnRegion(c, s, conn, now, reusable);
    if s.closed || PastLifetime(c, conn, now) || !reusable {
      SameQueue(s, o, ticket);
    } else if InOrder(s.waiters) {
      KeptInOrder(s.waiters, now, {});
      Partition(s.waiters, now, {});
      FrontServed(s, o, Kept(s.waiters, now, {}), ticket);
    }
  }

  lemma {:induction false} FrontServed(s: Shared, o: Out, kept: seq<Waiter>, ticket: nat)
    requires InOrder(kept) && |kept| <= |s.waiters| && forall x <- kept :: x in s.waiters
    requires if kept == [] then o.s.waiters == [] && o.served == []
             else o.s.waiters == kept[1..] && o.served == [kept[0].ticket]
    ensures Queues(s, o, ticket)
  {
    if kept != [] {
      assert kept[0] in kept;
      assert InQueue(kept[0].ticket, s.waiters);
    }
  }

  lemma {:induction false} SyncPingSound(c: Config, s: Shared, item: Idle, now: int, ok: bool, x: Conn, r: nat)
    requires Covered(c, s, [SyncPing(item)])
    ensures Balanced(c, s, [SyncPing(item)], [], SyncPingDoneRegion(c, s, item, now, ok), x, r)
  {
    SumOne(SyncPing(item), x, r);
    SumOne(Retired(item.conn), x, r);
    SumOne(Handle(item.conn), x, r);
  }

  lemma {:induction false} SyncStartSound(c: Config, s: Shared, x: Conn, r: nat)
    requires Covered(c, s, []) && !s.closed
    ensures s.idle != [] ==> Balanced(c, s, [], [], SyncTakeRegion(s), x, r)
    ensures s.total < c.maxConn ==> Balanced(c, s, [], [], SyncReserveRegion(s), x, r)
  {
    SumOne(SyncCreate, x, r);
    if s.idle != [] { SumOne(SyncPing(s.idle[0]), x, r); }
  }

  lemma {:induction false} SyncCreateSound(c: Config, s: Shared, result: Option<Conn>, x: Conn, r: nat)
    requires Covered(c, s, [SyncCreate])
    ensures Balanced(c, s, [SyncCreate], Opens(SyncCreateDone(0, result)), SyncCreateDoneRegion(s, result), x, r)
  {
    SumOne(SyncCreate, x, r);
    if result.Some? {
      SumOne(Handle(result.value), x, r);
      SumOne(Retired(result.value), x, r);
    }
  }

  lemma {:induction false} AsyncTakeBalanced(
    c: Config, s: Shared, req: nat, now: int, effective: nat, x: Conn, r: nat, ticket: nat)
    requires Covered(c, s, [Starting(req)]) && !s.closed && s.idle != []
    ensures Balanced(c, s, [Starting(req)], [], AsyncEnterRegion(c, s, req, now, effective, ticket), x, r)
  {
    var item := s.idle[0];
    SumOne(Starting(req), x, r);
    if PastLifetime(c, item.conn, now) {
      SumTwo(Retired(item.conn), Starting(req), x, r);
    } else if !NeedsPing(c, item, now) {
      SumOne(Deliver(req, Granted(item.conn)), x, r);
    } else {
      SumOne(AsyncPing(req, item), x, r);
    }
  }

  lemma {:induction false} AsyncEnterBalanced(
    c: Config, s: Shared, req: nat, now: int, effective: nat, x: Conn, r: nat, ticket: nat)
    requires Covered(c, s, [Starting(req)])
    ensures Balanced(c, s, [Starting(req)], [], AsyncEnterRegion(c, s, req, now, effective, ticket), x, r)
  {
    SumOne(Starting(req), x, r);
    if s.closed {
      SumOne(Deliver(req, PoolClosed), x, r);
    } else if s.idle != [] {
      AsyncTakeBalanced(c, s, req, now, effective, x, r, ticket);
    } else if s.total < c.maxConn {
      SumOne(AsyncCreate(req), x, r);
    } else if effective == 0 {
      SumOne(Deliver(req, Exhausted), x, r);
    } else {
      QueuedAppend(s.waiters, [Waiter(req, ticket, now + effective)], r);
    }
  }

  lemma {:induction false} AsyncEnterQueues(c: Config, s: Shared, req: nat, now: int, effective: nat, ticket: nat)
    ensures Queues(s, AsyncEnterRegion(c, s, req, now, effective, ticket), ticket)
  {
    var o := AsyncEnterRegion(c, s, req, now, effective, ticket);
    if o.s.waiters == s.waiters {
      SameQueue(s, o, ticket);
    }
  }

  lemma {:induction false} AsyncPingSound(
    c: Config, s: Shared, req: nat, item: Idle, now: int, ok: bool, x: Conn, r: nat)
    requires Covered(c, s, [AsyncPing(req, item)])
    ensures Balanced(c, s, [AsyncPing(req, item)], [], AsyncPingRejectedRegion(s, req, item, now), x, r)
    ensures Balanced(c, s, [AsyncPing(req, item)], [], AsyncPingDoneRegion(s, req, item, ok), x, r)
  {
    SumOne(AsyncPing(req, item), x, r);
    SumTwo(Retired(item.conn), Deliver(req, Overloaded), x, r);
    SumOne(Deliver(req, Overloaded), x, r);
    SumTwo(Retired(item.conn), Deliver(req, PoolClosed), x, r);
    SumOne(Deliver(req, Granted(item.conn)), x, r);
    SumOne(AsyncDrop(req, item.conn), x, r);
    IdleAppend(s.idle, [Idle(item.conn, now, item.lastValidated)], x);
  }

  lemma {:induction false} AsyncPingDropSound(c: Config, s: Shared, req: nat, conn: Conn, x: Conn, r: nat)
    requires Covered(c, s, [AsyncDrop(req, conn)])
    ensures Balanced(c, s, [AsyncDrop(req, conn)], [], AsyncPingDropRegion(s, req, conn), x, r)
  {
    SumOne(AsyncDrop(req, conn), x, r);
    SumTwo(Retired(conn), Starting(req), x, r);
  }

  lemma {:induction false} AsyncCreateRejectedSound(c: Config, s: Shared, req: nat, x: Conn, r: nat)
    requires Covered(c, s, [AsyncCreate(req)])
    ensures Balanced(c, s, [AsyncCreate(req)], [], AsyncCreateRejectedRegion(s, req), x, r)
  {
    SumOne(AsyncCreate(req), x, r);
    SumOne(Deliver(req, Overloaded), x, r);
  }

  lemma {:induction false} AsyncCreateSound(c: Config, s: Shared, req: nat, result: Option<Conn>, x: Conn, r: nat)
    requires Covered(c, s, [AsyncCreate(req)])
    ensures Balanced(c, s, [AsyncCreate(req)], Opens(AsyncCreateDone(0, result)),
      AsyncCreateDoneRegion(s, req, result), x, r)
  {
    SumOne(AsyncCreate(req), x, r);
    if s.closed {
      SumOne(Deliver(req, PoolClosed), x, r);
      if result.Some? { SumTwo(Retired(result.value), Deliver(req, PoolClosed), x, r); }
    } else if result.Some? {
      SumOne(Deliver(req, Granted(result.value)), x, r);
    } else {
      SumOne(Deliver(req, ConnectFailed), x, r);
    }
  }

  lemma {:induction false} ExpireSound(c: Config, s: Shared, now: int, stopped: set<nat>, x: Conn, r: nat, ticket: nat)
    requires Covered(c, s, [])
    ensures Balanced(c, s, [], [], ExpireRegion(s, now, stopped), x, r)
    ensures Queues(s, ExpireRegion(s, now, stopped), ticket)
  {
    Partition(s.waiters, now, stopped);
    PartitionCounts(s.waiters, now, stopped, r);
    if InOrder(s.waiters) { KeptInOrder(s.waiters, now, stopped); }
    SumExpirations(Expired(s.waiters, now, stopped), stopped, x, r);
  }

  /** Two balanced regions in a row, the first leaving one hold, make a balanced region. */
  lemma {:induction false} Compose(c: Config, s: Shared, t: Shared, h: Hold, p: Out, served: seq<nat>, x: Conn, r: nat)
    requires Balanced(c, s, [], [], Out(t, [h], []), x, r)
    requires Balanced(c, t, [], [], p, x, r)
    requires !t.closed
    ensures Balanced(c, s, [], [], Out(p.s, [h] + p.holds, served), x, r)
  {
    SumOne(h, x, r);
    SumCons(h, p.holds, x, r);
  }

  lemma {:induction false} ServeBalanced(c: Config, s: Shared, x: Conn, r: nat)
    requires Covered(c, s, []) && !s.closed
    ensures Balanced(c, s, [], [], Serve(c, s), x, r)
    decreases |s.waiters|
  {
    if s.waiters != [] {
      var w := s.waiters[0];
      if s.idle != [] {
        var t := s.(idle := s.idle[1..], waiters := s.waiters[1..], borrowed := s.borrowed + 1);
        var h, p := Deliver(w.req, Granted(s.idle[0].conn)), Serve(c, t);
        SumOne(h, x, r);
        ServeBalanced(c, t, x, r);
        Compose(c, s, t, h, p, [w.ticket] + p.served, x, r);
      } else if s.total < c.maxConn {
        var t := s.(total := s.total + 1, waiters := s.waiters[1..]);
        var h, p := AsyncCreate(w.req), Serve(c, t);
        SumOne(h, x, r);
        ServeBalanced(c, t, x, r);
        Compose(c, s, t, h, p, [w.ticket] + p.served, x, r);
      }
    }
  }

  /** Waking serves a prefix of the queue, in order. */
  lemma {:induction false} ServePrefix(c: Config, s: Shared)
    ensures var o := Serve(c, s);
      && |o.served| <= |s.waiters|
      && o.s.waiters == s.waiters[|o.served|..]
      && forall k :: 0 <= k < |o.served| ==> o.served[k] == s.waiters[k].ticket
    decreases |s.waiters|
  {
    if s.waiters != [] {
      if s.idle != [] {
        ServePrefix(c, s.(idle := s.idle[1..], waiters := s.waiters[1..], borrowed := s.borrowed + 1));
      } else if s.total < c.maxConn {
        ServePrefix(c, s.(total := s.total + 1, waiters := s.waiters[1..]));
      }
    }
  }

  lemma {:induction false} WakeSound(c: Config, s: Shared, x: Conn, r: nat, ticket: nat)
    requires Covered(c, s, [])
    ensures Balanced(c, s, [], [], WakeRegion(c, s), x, r)
    ensures Queues(s, WakeRegion(c, s), ticket)
  {
    if !s.closed {
      ServeBalanced(c, s, x, r);
      ServePrefix(c, s);
      var o := Serve(c, s);
      forall t <- o.served
        ensures InQueue(t, s.waiters)
      {
        var k :| 0 <= k < |o.served| && o.served[k] == t;
        assert s.waiters[k] in s.waiters;
      }
    }
  }

  lemma {:induction false} HealthPingSound(
    c: Config, s: Shared, item: Idle, retire: bool, now: int, ok: bool, x: Conn, r: nat)
    requires Covered(c, s, [HealthPing(item, retire)])
    ensures Balanced(c, s, [HealthPing(item, retire)], [], HealthDoneRegion(c, s, item, retire, now, ok), x, r)
  {
    SumOne(HealthPing(item, retire), x, r);
    SumOne(Retired(item.conn), x, r);
    IdleAppend(s.idle, [item], x);
    IdleAppend(s.idle, [item.(lastValidated := now)], x);
  }

  lemma {:induction false} HealthStartSound(c: Config, s: Shared, now: int, x: Conn, r: nat)
    requires Covered(c, s, [])
    ensures Balanced(c, s, [], [], HealthTakeRegion(c, s, now), x, r)
    ensures Balanced(c, s, [], [], HealthReserveRegion(c, s), x, r)
  {
    if s.idle != [] {
      SumOne(HealthPing(s.idle[0], true), x, r);
      SumOne(HealthPing(s.idle[0], false), x, r);
    }
    SumOne(Refill(Needed(c, s.total)), x, r);
  }

  lemma {:induction false} HealthRefilledSound(
    c: Config, s: Shared, need: nat, conns: seq<Conn>, now: int, x: Conn, r: nat)
    requires Covered(c, s, [Refill(need)]) && |conns| <= need
    ensures Balanced(c, s, [Refill(need)], conns, HealthRefilledRegion(s, need, conns, now), x, r)
  {
    SumOne(Refill(need), x, r);
    SumRetirements(conns, x, r);
    FreshIdleConns(conns, now, x);
    IdleAppend(s.idle, FreshIdle(conns, now), x);
  }

  lemma {:induction false} ShutdownBeginSound(c: Config, s: Shared, x: Conn, r: nat)
    requires Covered(c, s, [])
    ensures Balanced(c, s, [], [], ShutdownBeginRegion(s), x, r)
  {
    SumOne(Closing(s.waiters), x, r);
  }

  lemma {:induction false} ShutdownSound(c: Config, s: Shared, drained: seq<Waiter>, x: Conn, r: nat)
    requires Covered(c, s, [Closing(drained)]) && s.closed
    ensures s.idle != [] ==> Balanced(c, s, [Closing(drained)], [], ShutdownPopRegion(s, drained), x, r)
    ensures Balanced(c, s, [Closing(drained)], [], ShutdownEndRegion(s, drained), x, r)
  {
    SumOne(Closing(drained), x, r);
    SumClosures(drained, x, r);
    if s.idle != [] { SumTwo(Closing(drained), Retired(s.idle[0].conn), x, r); }
  }

  lemma {:induction false} ListHolds(ws: seq<Waiter>, stopped: set<nat>)
    ensures forall h <- Expirations(ws, stopped) :: h.Deliver?
    ensures forall h <- Drops(ws) :: h.Dropped?
    ensures forall h <- Closures(ws) :: h.Deliver?
  {
    if ws != [] { ListHolds(ws[1..], stopped); }
  }

  lemma {:induction false} RetirementHolds(conns: seq<Conn>)
    ensures forall h <- Retirements(conns) :: h.Retired?
  {
    if conns != [] { RetirementHolds(conns[1..]); }
  }

  lemma {:induction false} ServeHolds(c: Config, s: Shared)
    ensures forall h <- Serve(c, s).holds :: h.Deliver? || h.AsyncCreate?
    decreases |s.waiters|
  {
    if s.waiters != [] {
      if s.idle != [] {
        ServeHolds(c, s.(idle := s.idle[1..], waiters := s.waiters[1..], borrowed := s.borrowed + 1));
      } else if s.total < c.maxConn {
        ServeHolds(c, s.(total := s.total + 1, waiters := s.waiters[1..]));
      }
    }
  }

  // ------------------------------------------------------------- every step

  /** Splitting off the hold an event consumes. */
  lemma {:induction false} TakenSplit(w: World, e: Event, x: Conn, r: nat)
    requires UsesHold(e) ==> e.i < |w.holds|
    ensures SlotsIn(w.holds) == SlotsIn(Taken(w, e)) + SlotsIn(Others(w, e))
    ensures HandlesIn(w.holds) == HandlesIn(Taken(w, e)) + HandlesIn(Others(w, e))
    ensures ConnIn(w.holds, x) == ConnIn(Taken(w, e), x) + ConnIn(Others(w, e), x)
    ensures ReqIn(w.holds, r) == ReqIn(Taken(w, e), r) + ReqIn(Others(w, e), r)
    ensures DropIn(w.holds, r) == DropIn(Taken(w, e), r) + DropIn(Others(w, e), r)
  {
    if UsesHold(e) {
      var a, b := w.holds[..e.i], w.holds[e.i + 1..];
      assert w.holds == a + ([w.holds[e.i]] + b);
      SumAppend(a, [w.holds[e.i]] + b, x, r);
      SumAppend([w.holds[e.i]], b, x, r);
      SumAppend(a, b, x, r);
    }
  }

  predicate IsAsync(e: Event) {
    e.AsyncStop? || e.AsyncEnter? || e.AsyncPingRejected? || e.AsyncPingDone? || e.AsyncPingDrop? ||
    e.AsyncCreateRejected? || e.AsyncCreateDone?
  }

  predicate IsServing(e: Event) { e.Expire? || e.Wake? || e.Return? }

  lemma {:induction false} AsyncStopBalanced(c: Config, w: World, i: nat, x: Conn, r: nat)
    requires Enabled(c, w, AsyncStop(i)) && Covered(c, w.shared, Taken(w, AsyncStop(i)))
    ensures Balanced(c, w.shared, Taken(w, AsyncStop(i)), [], Fire(c, w, AsyncStop(i)), x, r)
  {
    SumOne(w.holds[i], x, r);
    SumOne(Deliver(w.holds[i].req, Stopped), x, r);
  }

  lemma {:induction false} AsyncFireBalanced(c: Config, w: World, e: Event, x: Conn, r: nat)
    requires Enabled(c, w, e) && IsAsync(e) && Covered(c, w.shared, Taken(w, e))
    ensures Balanced(c, w.shared, Taken(w, e), Opens(e), Fire(c, w, e), x, r)
  {
    hide SlotsIn, HandlesIn, ConnIn, ReqIn, DropIn, IdleIn, Queued, Times;
    var s := w.shared;
    match e {
      case AsyncStop(i) => AsyncStopBalanced(c, w, i, x, r);
      case AsyncEnter(i, now, effective) => AsyncEnterBalanced(c, s, w.holds[i].req, now, effective, x, r,
        w.nextTicket);
      case AsyncPingRejected(i, now) => AsyncPingSound(c, s, w.holds[i].req, w.holds[i].item, now, true, x, r);
      case AsyncPingDone(i, ok) => AsyncPingSound(c, s, w.holds[i].req, w.holds[i].item, 0, ok, x, r);
      case AsyncPingDrop(i) => AsyncPingDropSound(c, s, w.holds[i].req, w.holds[i].conn, x, r);
      case AsyncCreateRejected(i) => AsyncCreateRejectedSound(c, s, w.holds[i].req, x, r);
      case AsyncCreateDone(i, result) => AsyncCreateSound(c, s, w.holds[i].req, result, x, r);
    }
  }

  lemma {:induction false} ServingFireBalanced(c: Config, w: World, e: Event, x: Conn, r: nat)
    requires Enabled(c, w, e) && IsServing(e) && Covered(c, w.shared, Taken(w, e))
    ensures Balanced(c, w.shared, Taken(w, e), Opens(e), Fire(c, w, e), x, r)
  {
    hide SlotsIn, HandlesIn, ConnIn, ReqIn, DropIn, IdleIn, Queued, Times;
    match e {
      case Expire(now, stopped) => ExpireSound(c, w.shared, now, stopped, x, r, 0);
      case Return(i, now, reusable) => ReturnBalanced(c, w.shared, w.holds[i].conn, now, reusable, x, r);
      case Wake => WakeSound(c, w.shared, x, r, 0);
    }
  }

  lemma {:induction false} OtherFireBalanced(c: Config, w: World, e: Event, x: Conn, r: nat)
    requires Enabled(c, w, e) && !IsAsync(e) && !IsServing(e) && !e.Request? && !e.Finish?
      && Covered(c, w.shared, Taken(w, e))
    requires e.ShutdownPop? || e.ShutdownEnd? ==> w.shared.closed
    ensures Balanced(c, w.shared, Taken(w, e), Opens(e), Fire(c, w, e), x, r)
  {
    hide SlotsIn, HandlesIn, ConnIn, ReqIn, DropIn, IdleIn, Queued, Times;
    var s := w.shared;
    match e {
      case SyncTake => SyncStartSound(c, s, x, r);
      case SyncPingDone(i, now, ok) => SyncPingSound(c, s, w.holds[i].item, now, ok, x, r);
      case SyncReserve => SyncStartSound(c, s, x, r);
      case SyncCreateDone(i, result) => SyncCreateSound(c, s, result, x, r);
      case HealthTake(now) => HealthStartSound(c, s, now, x, r);
      case HealthDone(i, now, ok) => HealthPingSound(c, s, w.holds[i].item, w.holds[i].retire, now, ok, x, r);
      case HealthReserve => HealthStartSound(c, s, 0, x, r);
      case HealthRefilled(i, now, conns) => HealthRefilledSound(c, s, w.holds[i].need, conns, now, x, r);
      case ShutdownBegin => ShutdownBeginSound(c, s, x, r);
      case ShutdownPop(i) => ShutdownSound(c, s, w.holds[i].drained, x, r);
      case ShutdownEnd(i) => ShutdownSound(c, s, w.holds[i].drained, x, r);
    }
  }

  /** Issuing and completing a request leave slots, handles and connections as they are. */
  lemma {:induction false} EdgeBalanced(c: Config, w: World, e: Event, x: Conn, r: nat)
    requires Inv(c, w) && Enabled(c, w, e) && (e.Request? || e.Finish?)
    ensures Counted(c, w.shared, Taken(w, e), Fire(c, w, e))
    ensures Placed(w.shared, Taken(w, e), Opens(e), Fire(c, w, e), x)
  {
    TakenSplit(w, e, x, r);
    if e.Request? {
      SumOne(Starting(e.req), x, r);
    } else {
      SumOne(w.holds[e.i], x, r);
      if w.holds[e.i].outcome.Granted? { SumOne(Handle(w.holds[e.i].outcome.conn), x, r); }
    }
  }

  /** Every event balances; issuing and completing a request balance all but the request itself. */
  lemma {:induction false} FireBalanced(c: Config, w: World, e: Event, x: Conn, r: nat)
    requires Inv(c, w) && Enabled(c, w, e)
    ensures Counted(c, w.shared, Taken(w, e), Fire(c, w, e))
    ensures Placed(w.shared, Taken(w, e), Opens(e), Fire(c, w, e), x)
    ensures !e.Request? && !e.Finish? ==> Carried(w.shared, Taken(w, e), Fire(c, w, e), r)
  {
    hide SlotsIn, HandlesIn, ConnIn, ReqIn, DropIn, IdleIn, Queued, Times;
    TakenSplit(w, e, x, r);
    if e.Request? || e.Finish? {
      EdgeBalanced(c, w, e, x, r);
    } else if IsAsync(e) {
      AsyncFireBalanced(c, w, e, x, r);
    } else if IsServing(e) {
      ServingFireBalanced(c, w, e, x, r);
    } else {
      OtherFireBalanced(c, w, e, x, r);
    }
  }

  lemma {:induction false} FireQueues(c: Config, w: World, e: Event)
    requires Inv(c, w) && Enabled(c, w, e)
    ensures Queues(w.shared, Fire(c, w, e), w.nextTicket)
  {
    var s, o := w.shared, Fire(c, w, e);
    match e {
      case AsyncEnter(i, now, effective) => AsyncEnterQueues(c, s, w.holds[i].req, now, effective, w.nextTicket);
      case Expire(now, stopped) => ExpireSound(c, s, now, stopped, Conn(0, 0), 0, w.nextTicket);
      case Return(i, now, reusable) => ReturnQueues(c, s, w.holds[i].conn, now, reusable, w.nextTicket);
      case Wake => WakeSound(c, s, Conn(0, 0), 0, w.nextTicket);
      case _ =>
        if !e.ShutdownBegin? { SameQueue(s, o, w.nextTicket); }
    }
  }

  /** Only shutdown leaves a `Closing` hold, and it leaves the pool closed. */
  lemma {:induction false} FireClosing(c: Config, w: World, e: Event)
    requires Enabled(c, w, e)
    requires forall h <- w.holds :: h.Closing? ==> w.shared.closed
    ensures forall h <- Fire(c, w, e).holds :: h.Closing? ==> Fire(c, w, e).s.closed
  {
    var s := w.shared;
    match e {
      case Expire(now, stopped) => ListHolds(Expired(s.waiters, now, stopped), stopped);
      case Return(i, now, reusable) => ListHolds(Expired(s.waiters, now, {}), {});
      case Wake => ServeHolds(c, s);
      case HealthRefilled(i, now, conns) => RetirementHolds(conns);
      case ShutdownPop(i) => assert w.holds[i] in w.holds;
      case ShutdownEnd(i) => ListHolds(w.holds[i].drained, {});
      case _ =>
    }
  }
}

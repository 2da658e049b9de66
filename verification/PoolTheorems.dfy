/** What every run of the pool keeps, and what it promises its waiters. */
module PoolTheorems {
  import opened Wrappers
  import opened Pool
  import opened PoolProtocol

  // ------------------------------------------------------ the invariant holds

  lemma {:induction false} TimesDistinct<T>(xs: seq<T>, x: T)
    requires Distinct(xs)
    ensures Times(xs, x) == One(x in xs)
  {
    if xs != [] {
      TimesDistinct(xs[1..], x);
      assert xs == [xs[0]] + xs[1..];
      assert xs[0] !in xs[1..];
    }
  }

  lemma {:induction false} IdleDistinct(items: seq<Idle>, x: Conn)
    requires forall j, k :: 0 <= j < k < |items| ==> items[j].conn != items[k].conn
    ensures IdleIn(items, x) == One(exists k :: 0 <= k < |items| && items[k].conn == x)
  {
    if items != [] {
      var rest := items[1..];
      IdleDistinct(rest, x);
      if items[0].conn == x {
        assert forall k :: 0 <= k < |rest| ==> rest[k] == items[k + 1];
      } else if k :| 0 <= k < |items| && items[k].conn == x {
        assert rest[k - 1].conn == x;
      }
    }
  }

  lemma {:induction false} InitInv(c: Config, w: World)
    requires Init(c, w)
    ensures Inv(c, w)
  {
    forall x
      ensures ConnOnce(w, x)
    {
      IdleDistinct(w.shared.idle, x);
    }
  }

  predicate Fits(w: World, e: Event) {
    (UsesHold(e) ==> e.i < |w.holds|) && (e.Finish? ==> w.holds[e.i].Deliver?)
  }

  lemma {:induction false} StepCounts(c: Config, w: World, e: Event, o: Out)
    requires Inv(c, w) && Fits(w, e) && Counted(c, w.shared, Taken(w, e), o)
    ensures var v := Commit(w, e, o);
      SlotsExact(c, v) && HandlesExact(v) && (v.shared.closed ==> v.shared.waiters == [])
  {
    TakenSplit(w, e, Conn(0, 0), 0);
    SumAppend(Others(w, e), o.holds, Conn(0, 0), 0);
  }

  lemma {:induction false} StepConn(c: Config, w: World, e: Event, o: Out, x: Conn)
    requires Inv(c, w) && Fits(w, e) && Placed(w.shared, Taken(w, e), Opens(e), o, x)
    requires Distinct(Opens(e)) && forall conn <- Opens(e) :: conn !in w.made
    ensures ConnOnce(Commit(w, e, o), x)
  {
    TakenSplit(w, e, x, 0);
    SumAppend(Others(w, e), o.holds, x, 0);
    TimesDistinct(Opens(e), x);
    assert ConnOnce(w, x);
  }

  lemma {:induction false} StepReq(c: Config, w: World, e: Event, o: Out, r: nat)
    requires Inv(c, w) && Fits(w, e) && !e.Request? && !e.Finish? && Carried(w.shared, Taken(w, e), o, r)
    ensures ReqOnce(Commit(w, e, o), r)
  {
    TakenSplit(w, e, Conn(0, 0), r);
    SumAppend(Others(w, e), o.holds, Conn(0, 0), r);
    assert ReqOnce(w, r);
  }

  lemma {:induction false} IssueReq(c: Config, w: World, e: Event, o: Out, r: nat)
    requires Inv(c, w) && e.Request? && e.req !in w.issued && o == Out(w.shared, [Starting(e.req)], [])
    ensures ReqOnce(Commit(w, e, o), r)
  {
    SumAppend(w.holds, o.holds, Conn(0, 0), r);
    SumOne(Starting(e.req), Conn(0, 0), r);
    assert ReqOnce(w, r);
  }

  lemma {:induction false} CompleteReq(c: Config, w: World, e: Event, o: Out, r: nat)
    requires Inv(c, w) && e.Finish? && Fits(w, e) && o.s == w.shared && ReqIn(o.holds, r) == 0
    ensures ReqOnce(Commit(w, e, o), r)
  {
    TakenSplit(w, e, Conn(0, 0), r);
    SumAppend(Others(w, e), o.holds, Conn(0, 0), r);
    SumOne(w.holds[e.i], Conn(0, 0), r);
    TimesAppend(w.log, [w.holds[e.i].req], r);
    assert ReqOnce(w, r);
  }

  lemma {:induction false} SortedAppend(a: seq<nat>, b: seq<nat>)
    requires Sorted(a) && Sorted(b) && forall x, y :: x in a && y in b ==> x < y
    ensures Sorted(a + b)
  {
    forall i, j | 0 <= i < j < |a + b|
      ensures (a + b)[i] < (a + b)[j]
    {
      if i < |a| <= j { assert a[i] in a && b[j - |a|] in b; }
    }
  }

  lemma {:induction false} StepOrder(w: World, e: Event, o: Out)
    requires Order(w) && Fits(w, e) && Queues(w.shared, o, w.nextTicket)
    ensures Order(Commit(w, e, o))
  {
    forall t <- o.served
      ensures t < w.nextTicket && forall u <- w.served :: u < t
    {
      assert InQueue(t, w.shared.waiters);
    }
    SortedAppend(w.served, o.served);
  }

  lemma {:induction false} StepConns(c: Config, w: World, e: Event)
    requires Inv(c, w) && Enabled(c, w, e)
    ensures forall x :: ConnOnce(Commit(w, e, Fire(c, w, e)), x)
  {
    var o := Fire(c, w, e);
    forall x
      ensures ConnOnce(Commit(w, e, o), x)
    {
      FireBalanced(c, w, e, x, 0);
      StepConn(c, w, e, o, x);
    }
  }

  lemma {:induction false} StepReqs(c: Config, w: World, e: Event)
    requires Inv(c, w) && Enabled(c, w, e)
    ensures forall r :: ReqOnce(Commit(w, e, Fire(c, w, e)), r)
  {
    var o := Fire(c, w, e);
    forall r
      ensures ReqOnce(Commit(w, e, o), r)
    {
      if e.Request? {
        IssueReq(c, w, e, o, r);
      } else if e.Finish? {
        if o.holds != [] { SumOne(o.holds[0], Conn(0, 0), r); }
        CompleteReq(c, w, e, o, r);
      } else {
        FireBalanced(c, w, e, Conn(0, 0), r);
        StepReq(c, w, e, o, r);
      }
    }
  }

  lemma {:induction false} Assemble(c: Config, w: World, e: Event, o: Out)
    requires Inv(c, w) && Fits(w, e)
    requires Counted(c, w.shared, Taken(w, e), o) && Queues(w.shared, o, w.nextTicket)
    requires forall h <- o.holds :: h.Closing? ==> o.s.closed
    requires forall x :: ConnOnce(Commit(w, e, o), x)
    requires forall r :: ReqOnce(Commit(w, e, o), r)
    ensures Inv(c, Commit(w, e, o))
  {
    StepCounts(c, w, e, o);
    StepOrder(w, e, o);
  }

  /** Every event keeps the invariant. */
  lemma {:induction false} StepInv(c: Config, w: World, e: Event)
    requires Inv(c, w) && Enabled(c, w, e)
    ensures Inv(c, Apply(c, w, e))
  {
    FireBalanced(c, w, e, Conn(0, 0), 0);
    FireQueues(c, w, e);
    FireClosing(c, w, e);
    StepConns(c, w, e);
    StepReqs(c, w, e);
    Assemble(c, w, e, Fire(c, w, e));
  }

  lemma {:induction false} RunInv(c: Config, ws: seq<World>, es: seq<Event>, k: nat)
    requires IsRun(c, ws, es) && k <= |es|
    ensures Inv(c, ws[k])
  {
    if k == 0 {
      InitInv(c, ws[0]);
    } else {
      RunInv(c, ws, es, k - 1);
      StepInv(c, ws[k - 1], es[k - 1]);
    }
  }

  // --------------------------------------------------------------- theorems

  /** Connections out for validation and slots reserved for connections being opened. */
  function InFlight(hs: seq<Hold>): nat {
    if hs == [] then 0
    else (if IsHandle(hs[0]) then 0 else SlotsOf(hs[0])) + InFlight(hs[1..])
  }

  lemma {:induction false} SlotsSplit(hs: seq<Hold>)
    ensures SlotsIn(hs) == HandlesIn(hs) + InFlight(hs)
  {
    if hs != [] { SlotsSplit(hs[1..]); }
  }

  /**
    In every reachable state: while the pool is open, `total` counts exactly the
    idle, borrowed and in-flight connections and never exceeds the maximum; open
    or closed, `borrowed` counts the outstanding handles; and every connection
    ever opened is in exactly one place.
  */
  lemma {:induction false} PoolIsExact(c: Config, ws: seq<World>, es: seq<Event>, k: nat)
    requires IsRun(c, ws, es) && k <= |es|
    ensures var w := ws[k];
      && (!w.shared.closed ==>
            && w.shared.total == |w.shared.idle| + w.shared.borrowed + InFlight(w.holds)
            && w.shared.total <= c.maxConn)
      && w.shared.borrowed == HandlesIn(w.holds)
      && forall x :: IdleIn(w.shared.idle, x) + ConnIn(w.holds, x) == One(x in w.made)
  {
    RunInv(c, ws, es, k);
    SlotsSplit(ws[k].holds);
    forall x
      ensures IdleIn(ws[k].shared.idle, x) + ConnIn(ws[k].holds, x) == One(x in ws[k].made)
    {
      assert ConnOnce(ws[k], x);
    }
  }

  lemma {:induction false} TimesDuplicate(xs: seq<nat>, i: nat, j: nat)
    requires i < j < |xs| && xs[i] == xs[j]
    ensures Times(xs, xs[i]) >= 2
  {
    if i > 0 {
      TimesDuplicate(xs[1..], i - 1, j - 1);
    } else {
      TimesMember(xs[1..], j - 1);
    }
  }

  lemma {:induction false} TimesMember(xs: seq<nat>, j: nat)
    requires j < |xs|
    ensures Times(xs, xs[j]) >= 1
  {
    if j > 0 { TimesMember(xs[1..], j - 1); }
  }

  /** No callback ever runs twice, only issued requests complete, and waiters are served in enqueue order. */
  lemma {:induction false} CompletionsAreUnique(c: Config, ws: seq<World>, es: seq<Event>, k: nat)
    requires IsRun(c, ws, es) && k <= |es|
    ensures Distinct(ws[k].log)
    ensures forall r <- ws[k].log :: r in ws[k].issued
    ensures Sorted(ws[k].served)
  {
    var w := ws[k];
    RunInv(c, ws, es, k);
    forall i, j | 0 <= i < j < |w.log|
      ensures w.log[i] != w.log[j]
    {
      if w.log[i] == w.log[j] {
        assert ReqOnce(w, w.log[i]);
        TimesDuplicate(w.log, i, j);
      }
    }
    forall r <- w.log
      ensures r in w.issued
    {
      var j :| 0 <= j < |w.log| && w.log[j] == r;
      TimesMember(w.log, j);
      assert ReqOnce(w, r);
    }
  }

  /** A return that hands its connection over while other waiters have just expired. */
  predicate Lossy(c: Config, w: World, e: Event)
    requires Enabled(c, w, e)
  {
    && e.Return? && !w.shared.closed && e.reusable && !PastLifetime(c, w.holds[e.i].conn, e.now)
    && Kept(w.shared.waiters, e.now, {}) != [] && Expired(w.shared.waiters, e.now, {}) != []
  }

  function Lost(c: Config, w: World, e: Event, r: nat): nat
    requires Enabled(c, w, e)
  {
    if Lossy(c, w, e) then Queued(Expired(w.shared.waiters, e.now, {}), r) else 0
  }

  lemma {:induction false} NoDrops(hs: seq<Hold>, r: nat)
    requires forall h <- hs :: !h.Dropped?
    ensures DropIn(hs, r) == 0
  {
    if hs != [] {
      assert hs[0] in hs;
      NoDrops(hs[1..], r);
    }
  }

  /** Holds that a region leaves, other than a lossy return, are never dropped requests. */
  lemma {:induction false} FireDrops(c: Config, w: World, e: Event, r: nat)
    requires Enabled(c, w, e)
    ensures DropIn(Fire(c, w, e).holds, r) == Lost(c, w, e, r)
  {
    var s, o := w.shared, Fire(c, w, e);
    if Lossy(c, w, e) {
      var kept, gone := Kept(s.waiters, e.now, {}), Expired(s.waiters, e.now, {});
      SumDrops(gone, Conn(0, 0), r);
      SumCons(Deliver(kept[0].req, Granted(w.holds[e.i].conn)), Drops(gone), Conn(0, 0), r);
    } else {
      match e {
        case Expire(now, stopped) => ListHolds(Expired(s.waiters, now, stopped), stopped);
        case Return(i, now, reusable) => ListHolds(Expired(s.waiters, now, {}), {});
        case Wake => ServeHolds(c, s);
        case HealthRefilled(i, now, conns) => RetirementHolds(conns);
        case ShutdownEnd(i) => ListHolds(w.holds[i].drained, {});
        case _ =>
      }
      NoDrops(o.holds, r);
    }
  }

  lemma {:induction false} StepDrops(c: Config, w: World, e: Event, r: nat)
    requires Enabled(c, w, e)
    ensures DropIn(Apply(c, w, e).holds, r) == DropIn(w.holds, r) + Lost(c, w, e, r)
  {
    TakenSplit(w, e, Conn(0, 0), r);
    SumAppend(Others(w, e), Fire(c, w, e).holds, Conn(0, 0), r);
    FireDrops(c, w, e, r);
    NoDrops(Taken(w, e), r);
  }

  function DropTrace(ws: seq<World>, r: nat): seq<nat> {
    seq(|ws|, i requires 0 <= i < |ws| => DropIn(ws[i].holds, r))
  }

  lemma {:induction false} TraceStep(c: Config, ws: seq<World>, es: seq<Event>, i: nat, r: nat)
    requires IsRun(c, ws, es) && i < |es|
    ensures DropTrace(ws, r)[i + 1] == DropTrace(ws, r)[i] + Lost(c, ws[i], es[i], r)
  {
    StepDrops(c, ws[i], es[i], r);
  }

  lemma {:induction false} NonDecreasing(xs: seq<nat>, j: nat, k: nat)
    requires j <= k < |xs| && forall i :: 0 <= i < |xs| - 1 ==> xs[i] <= xs[i + 1]
    ensures xs[j] <= xs[k]
  {
    if j < k { NonDecreasing(xs, j, k - 1); }
  }

  lemma {:induction false} Constant(xs: seq<nat>, k: nat)
    requires k < |xs| && forall i :: 0 <= i < |xs| - 1 ==> xs[i + 1] == xs[i]
    ensures xs[k] == xs[0]
  {
    if k > 0 { Constant(xs, k - 1); }
  }

  lemma {:induction false} DropsGrow(c: Config, ws: seq<World>, es: seq<Event>, j: nat, r: nat)
    requires IsRun(c, ws, es) && j <= |es|
    ensures DropIn(ws[j].holds, r) <= DropIn(ws[|es|].holds, r)
  {
    var xs := DropTrace(ws, r);
    forall i | 0 <= i < |es| ensures xs[i] <= xs[i + 1] { TraceStep(c, ws, es, i, r); }
    NonDecreasing(xs, j, |es|);
  }

  lemma {:induction false} NoLossNoDrops(c: Config, ws: seq<World>, es: seq<Event>, r: nat)
    requires IsRun(c, ws, es)
    requires forall j :: 0 <= j < |es| ==> !Lossy(c, ws[j], es[j])
    ensures DropIn(ws[|es|].holds, r) == 0
  {
    var xs := DropTrace(ws, r);
    forall i | 0 <= i < |es| ensures xs[i + 1] == xs[i] { TraceStep(c, ws, es, i, r); }
    Constant(xs, |es|);
  }

  /** No hold still has a callback to deliver. */
  predicate Settled(w: World) {
    forall h <- w.holds ::
      !h.Starting? && !h.AsyncPing? && !h.AsyncDrop? && !h.AsyncCreate? && !h.Closing? && !h.Deliver?
  }

  lemma {:induction false} SettledRequests(hs: seq<Hold>, r: nat)
    requires forall h <- hs ::
      !h.Starting? && !h.AsyncPing? && !h.AsyncDrop? && !h.AsyncCreate? && !h.Closing? && !h.Deliver?
    ensures ReqIn(hs, r) == DropIn(hs, r)
  {
    if hs != [] {
      assert hs[0] in hs;
      SettledRequests(hs[1..], r);
    }
  }

  /**
    Once the pool is shut down and every delivery has run, every request was
    completed exactly once if and only if no single return both expired waiters
    and handed its connection to another one.
  */
  lemma {:induction false} ExactlyOnceIff(c: Config, ws: seq<World>, es: seq<Event>)
    requires IsRun(c, ws, es)
    requires ws[|es|].shared.closed && Settled(ws[|es|])
    ensures (forall r <- ws[|es|].issued :: Times(ws[|es|].log, r) == 1)
        <==> (forall k :: 0 <= k < |es| ==> !Lossy(c, ws[k], es[k]))
  {
    var n := |es|;
    var w := ws[n];
    RunInv(c, ws, es, n);
    if forall k :: 0 <= k < n ==> !Lossy(c, ws[k], es[k]) {
      forall r <- w.issued
        ensures Times(w.log, r) == 1
      {
        NoLossNoDrops(c, ws, es, r);
        SettledRequests(w.holds, r);
        assert ReqOnce(w, r);
      }
    } else {
      var k :| 0 <= k < n && Lossy(c, ws[k], es[k]);
      var gone := Expired(ws[k].shared.waiters, es[k].now, {});
      var r := gone[0].req;
      StepDrops(c, ws[k], es[k], r);
      DropsGrow(c, ws, es, k + 1, r);
      SettledRequests(w.holds, r);
      assert ReqOnce(w, r);
      assert r in w.issued && Times(w.log, r) == 0;
    }
  }

  // ---------------------------------------------------------------- witnesses

  /** World w is reached by some run. */
  ghost predicate Reachable(c: Config, w: World) {
    exists ws: seq<World>, es: seq<Event> :: IsRun(c, ws, es) && ws[|es|] == w
  }

  lemma {:induction false} Begin(c: Config, w: World)
    requires Init(c, w)
    ensures Reachable(c, w)
  {
    var es: seq<Event> := [];
    assert IsRun(c, [w], es) && [w][|es|] == w;
  }

  lemma {:induction false} Extend(c: Config, w: World, e: Event)
    requires Reachable(c, w) && Enabled(c, w, e)
    ensures Reachable(c, Apply(c, w, e))
  {
    hide Enabled, Init, Apply;
    var ws: seq<World>, es: seq<Event> :| IsRun(c, ws, es) && ws[|es|] == w;
    var ws', es' := ws + [Apply(c, w, e)], es + [e];
    assert IsRun(c, ws', es') && ws'[|es'|] == Apply(c, w, e);
  }

  /** One event from a reachable world with known shared state and holds. */
  lemma {:induction false} Go(c: Config, w: World, e: Event, v: World)
    requires Reachable(c, w) && Enabled(c, w, e) && v == Apply(c, w, e)
    ensures Reachable(c, v)
  {
    hide Enabled, Apply, Reachable;
    Extend(c, w, e);
  }

  /** A connection opened after shutdown has reset `total` drives it below zero. */
  lemma {:induction false} TotalAfterClose(conn: Conn)
    ensures exists w :: Reachable(Config(0, 1, 0, 0, 0), w) && w.shared.total == -1
  {
    hide Reachable;
    var c := Config(0, 1, 0, 0, 0);
    var w := ClosedTooEarly(c);
    var v := Apply(c, w, SyncCreateDone(0, Some(conn)));
    Go(c, w, SyncCreateDone(0, Some(conn)), v);
    assert v.shared.total == -1;
  }

  lemma {:induction false} ClosedTooEarly(c: Config) returns (w: World)
    requires c == Config(0, 1, 0, 0, 0)
    ensures Reachable(c, w) && w.shared == Shared(0, 0, [], [], true) && w.holds == [SyncCreate] && w.made == {}
  {
    hide Reachable;
    var u := ReservedOne(c);
    var v := u.(shared := Shared(1, 0, [], [], true), holds := [SyncCreate, Closing([])]);
    Go(c, u, ShutdownBegin, v);
    w := v.(shared := Shared(0, 0, [], [], true), holds := [SyncCreate]);
    Go(c, v, ShutdownEnd(1), w);
  }

  lemma {:induction false} ReservedOne(c: Config) returns (w: World)
    requires c == Config(0, 1, 0, 0, 0)
    ensures Reachable(c, w) && w.shared == Shared(1, 0, [], [], false) && w.holds == [SyncCreate] && w.made == {}
  {
    hide Reachable;
    var u := World(Shared(0, 0, [], [], false), [], {}, {}, [], [], 0);
    Begin(c, u);
    w := u.(shared := Shared(1, 0, [], [], false), holds := [SyncCreate]);
    Go(c, u, SyncReserve, w);
  }

  lemma {:induction false} BorrowedOne(c: Config, conn: Conn) returns (w: World)
    requires c == Config(1, 1, 0, 0, 0)
    ensures Reachable(c, w) && w == World(Shared(1, 1, [], [], false), [Handle(conn)], {conn}, {}, [], [], 0)
  {
    hide Reachable;
    var item := Idle(conn, 0, 0);
    var u := World(Shared(1, 0, [item], [], false), [], {conn}, {}, [], [], 0);
    Begin(c, u);
    var v := u.(shared := Shared(1, 0, [], [], false), holds := [SyncPing(item)]);
    Go(c, u, SyncTake, v);
    w := v.(shared := Shared(1, 1, [], [], false), holds := [Handle(conn)]);
    Go(c, v, SyncPingDone(0, 0, true), w);
  }

  /** With every connection borrowed, a request with time to wait joins the queue. */
  lemma {:induction false} JoinQueue(c: Config, u: World, conn: Conn, req: nat, patience: nat) returns (w: World)
    requires Reachable(c, u) && req !in u.issued && patience > 0 && u.holds == [Handle(conn)]
    requires !u.shared.closed && u.shared.idle == [] && u.shared.total >= c.maxConn
    ensures Reachable(c, w)
    ensures w == u.(shared := u.shared.(waiters := u.shared.waiters + [Waiter(req, u.nextTicket, patience)]),
                    issued := u.issued + {req}, nextTicket := u.nextTicket + 1)
  {
    hide Reachable;
    var v := u.(holds := [Handle(conn), Starting(req)], issued := u.issued + {req});
    Go(c, u, Request(req), v);
    w := v.(shared := u.shared.(waiters := u.shared.waiters + [Waiter(req, u.nextTicket, patience)]),
            holds := [Handle(conn)], nextTicket := u.nextTicket + 1);
    Go(c, v, AsyncEnter(1, 0, patience), w);
  }

  /** A waiter that expires in the very return that serves the one behind it is dropped, its callback never called. */
  lemma {:induction false} LostCallback(conn: Conn) returns (c: Config, w: World, e: Event)
    ensures Reachable(c, w) && Enabled(c, w, e) && Lossy(c, w, e)
    ensures DropIn(Apply(c, w, e).holds, 1) == 1
  {
    hide Reachable, Apply;
    c := Config(1, 1, 0, 0, 0);
    w := BorrowedOne(c, conn);
    w := JoinQueue(c, w, conn, 1, 5);
    w := JoinQueue(c, w, conn, 2, 100);
    e := Return(0, 10, true);
    var front, rest := Waiter(1, 0, 5), [Waiter(2, 1, 100)];
    assert w.shared.waiters == [front] + rest && ([front] + rest)[1..] == rest;
    assert Expired(rest, 10, {}) == [] && Kept(rest, 10, {}) == rest;
    assert Expired(w.shared.waiters, 10, {}) == [front];
    assert Queued([front], 1) == 1;
    StepDrops(c, w, e, 1);
  }
}

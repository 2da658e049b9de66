/**
  What `total` still says after close. Shutdown resets it to the handles out;
  connections and slots that were in flight then finish against a counter that
  no longer knows them, and one region decrements it without a floor.
*/
module PoolAfterClose {
  import opened Wrappers
  import opened Pool
  import opened PoolProtocol
  import opened PoolTheorems

  /** A synchronous borrow whose connection opens only after close. */
  predicate LateOpen(w: World, e: Event) { w.shared.closed && e.SyncCreateDone? && e.result.Some? }

  function LateOpens(ws: seq<World>, es: seq<Event>, k: nat): nat
    requires k <= |es| < |ws|
  {
    if k == 0 then 0 else LateOpens(ws, es, k - 1) + One(LateOpen(ws[k - 1], es[k - 1]))
  }

  /** Synchronous borrows that are opening a connection. */
  function Opening(hs: seq<Hold>): nat { if hs == [] then 0 else One(hs[0].SyncCreate?) + Opening(hs[1..]) }

  lemma {:induction false} OpeningAppend(a: seq<Hold>, b: seq<Hold>)
    ensures Opening(a + b) == Opening(a) + Opening(b)
  {
    if a == [] { assert a + b == b; } else {
      OpeningAppend(a[1..], b);
      assert (a + b)[1..] == a[1..] + b;
    }
  }

  lemma {:induction false} OpeningHoldsSlots(hs: seq<Hold>)
    ensures Opening(hs) <= SlotsIn(hs) && HandlesIn(hs) <= SlotsIn(hs)
  {
    if hs != [] { OpeningHoldsSlots(hs[1..]); }
  }

  lemma {:induction false} OpeningOne(h: Hold)
    ensures Opening([h]) == One(h.SyncCreate?)
  {
    assert [h][1..] == [];
  }

  lemma {:induction false} OpeningTaken(w: World, e: Event)
    requires UsesHold(e) ==> e.i < |w.holds|
    ensures Opening(w.holds) == Opening(Taken(w, e)) + Opening(Others(w, e))
  {
    if UsesHold(e) {
      var a, b := w.holds[..e.i], w.holds[e.i + 1..];
      assert w.holds == a + ([w.holds[e.i]] + b);
      OpeningAppend(a, [w.holds[e.i]] + b);
      OpeningAppend([w.holds[e.i]], b);
      OpeningAppend(a, b);
    }
  }

  lemma {:induction false} NoneOpening(hs: seq<Hold>)
    requires forall h <- hs :: !h.SyncCreate?
    ensures Opening(hs) == 0
  {
    if hs != [] { assert hs[0] in hs && forall h <- hs[1..] :: h in hs; NoneOpening(hs[1..]); }
  }

  // ----------------------------------------------------------- one closed step

  /** A closed pool's counters: nothing adds to them, and only a late opening takes `total` below zero. */
  lemma {:induction false} ClosedCounters(c: Config, w: World, e: Event)
    requires Enabled(c, w, e) && w.shared.closed && 0 <= w.shared.borrowed <= c.maxConn && w.shared.total <= c.maxConn
    ensures var s := Fire(c, w, e).s;
      && s.closed && s.borrowed <= w.shared.borrowed && s.total <= c.maxConn
      && (s.total >= 0 || s.total >= w.shared.total - One(LateOpen(w, e)))
  {
  }

  lemma {:induction false} ClosedForGood(c: Config, w: World, e: Event)
    requires Enabled(c, w, e)
    ensures w.shared.closed ==> Fire(c, w, e).s.closed
  {
  }

  lemma {:induction false} ClosedLists(c: Config, w: World, e: Event)
    requires Enabled(c, w, e) && w.shared.closed
    ensures forall h <- Fire(c, w, e).holds :: !h.SyncCreate?
  {
    var s := w.shared;
    match e {
      case Expire(now, stopped) => ListHolds(Expired(s.waiters, now, stopped), stopped);
      case HealthRefilled(i, now, conns) => RetirementHolds(conns);
      case ShutdownEnd(i) => ListHolds(w.holds[i].drained, {});
      case _ =>
    }
  }

  lemma {:induction false} ClosedOpening(c: Config, w: World, e: Event)
    requires Enabled(c, w, e) && w.shared.closed
    ensures Opening(Apply(c, w, e).holds) + One(LateOpen(w, e)) <= Opening(w.holds)
  {
    hide Fire;
    OpeningTaken(w, e);
    ClosedLists(c, w, e);
    NoneOpening(Fire(c, w, e).holds);
    OpeningAppend(Others(w, e), Fire(c, w, e).holds);
    if UsesHold(e) { OpeningOne(w.holds[e.i]); }
  }

  /** Only shutdown closes, and it leaves the counters alone. */
  lemma {:induction false} ClosingStep(c: Config, w: World, e: Event)
    requires Enabled(c, w, e) && !w.shared.closed && Fire(c, w, e).s.closed
    ensures Fire(c, w, e).s.total == w.shared.total && Fire(c, w, e).s.borrowed == w.shared.borrowed
    ensures Fire(c, w, e).holds == [Closing(w.shared.waiters)] && Others(w, e) == w.holds
  {
    if e.Wake? { ServeStaysOpen(c, w.shared); }
  }

  lemma {:induction false} ServeStaysOpen(c: Config, s: Shared)
    ensures Serve(c, s).s.closed == s.closed
    decreases |s.waiters|
  {
    if s.waiters != [] {
      if s.idle != [] {
        ServeStaysOpen(c, s.(idle := s.idle[1..], waiters := s.waiters[1..], borrowed := s.borrowed + 1));
      } else if s.total < c.maxConn {
        ServeStaysOpen(c, s.(total := s.total + 1, waiters := s.waiters[1..]));
      }
    }
  }

  // ---------------------------------------------------------------- every run

  predicate Bounds(c: Config, w: World, late: nat) {
    && 0 <= w.shared.total + late && w.shared.total <= c.maxConn && 0 <= w.shared.borrowed <= c.maxConn
    && late + Opening(w.holds) <= c.maxConn
  }

  lemma {:induction false} ClosedBounds(c: Config, w: World, e: Event, v: World, late: nat)
    requires Enabled(c, w, e) && v == Apply(c, w, e) && w.shared.closed && Bounds(c, w, late) && v.shared.borrowed >= 0
    ensures Bounds(c, v, late + One(LateOpen(w, e)))
  {
    hide Fire, Enabled, Opening;
    ClosedCounters(c, w, e);
    ClosedOpening(c, w, e);
  }

  lemma {:induction false} ClosingBounds(c: Config, w: World, e: Event, v: World)
    requires Enabled(c, w, e) && v == Apply(c, w, e) && !w.shared.closed && v.shared.closed && Bounds(c, w, 0)
    ensures Bounds(c, v, 0)
  {
    hide Fire, Opening;
    ClosingStep(c, w, e);
    OpeningAppend(w.holds, [Closing(w.shared.waiters)]);
    OpeningOne(Closing(w.shared.waiters));
  }

  /** Open or closed, in every state: `total` is at most the maximum, and below zero by no more than the synchronous
      borrows that opened after close; of those there are never more than the maximum. */
  lemma {:induction false} TotalStaysInBounds(c: Config, ws: seq<World>, es: seq<Event>, k: nat)
    requires IsRun(c, ws, es) && k <= |es|
    ensures 0 <= ws[k].shared.total + LateOpens(ws, es, k) && ws[k].shared.total <= c.maxConn
    ensures LateOpens(ws, es, k) + Opening(ws[k].holds) <= c.maxConn
    ensures !ws[k].shared.closed ==> LateOpens(ws, es, k) == 0
  {
    hide Fire, Enabled, Inv, Opening;
    RunBounds(c, ws, es, k);
    if !ws[k].shared.closed { NoneWhileOpen(c, ws, es, k); }
  }

  lemma {:induction false} RunBounds(c: Config, ws: seq<World>, es: seq<Event>, k: nat)
    requires IsRun(c, ws, es) && k <= |es|
    ensures Bounds(c, ws[k], LateOpens(ws, es, k))
  {
    hide Enabled, Inv, Bounds, Apply, Init, LateOpen;
    RunInv(c, ws, es, k);
    if !ws[k].shared.closed {
      OpenCounters(c, ws[k]);
      NoneWhileOpen(c, ws, es, k);
    } else if k == 0 {
      InitOpen(c, ws[0]);
    } else {
      RunBounds(c, ws, es, k - 1);
      var w, e := ws[k - 1], es[k - 1];
      BorrowedIsNat(c, ws[k]);
      if w.shared.closed {
        ClosedBounds(c, w, e, ws[k], LateOpens(ws, es, k - 1));
      } else {
        NoneWhileOpen(c, ws, es, k - 1);
        ClosingBounds(c, w, e, ws[k]);
        NotLate(w, e);
      }
    }
  }

  lemma {:induction false} InitOpen(c: Config, w: World)
    ensures Init(c, w) ==> !w.shared.closed
  {
  }

  lemma {:induction false} NotLate(w: World, e: Event)
    ensures !w.shared.closed ==> !LateOpen(w, e)
  {
  }

  lemma {:induction false} OpenCounters(c: Config, w: World)
    requires Inv(c, w) && !w.shared.closed
    ensures Bounds(c, w, 0)
  {
    OpeningHoldsSlots(w.holds);
  }

  lemma {:induction false} BorrowedIsNat(c: Config, w: World)
    requires Inv(c, w)
    ensures w.shared.borrowed >= 0
  {
  }

  lemma {:induction false} NoneWhileOpen(c: Config, ws: seq<World>, es: seq<Event>, k: nat)
    requires IsRun(c, ws, es) && k <= |es| && !ws[k].shared.closed
    ensures LateOpens(ws, es, k) == 0
  {
    hide Enabled, Fire;
    if k > 0 {
      assert ws[k] == Apply(c, ws[k - 1], es[k - 1]);
      ClosedForGood(c, ws[k - 1], es[k - 1]);
      NoneWhileOpen(c, ws, es, k - 1);
    }
  }

  // ------------------------------------------------------- the equation it keeps

  /** Nothing is in flight, and `total` counts the handles out: the state a shutdown leaves when nothing else runs. */
  predicate Settling(w: World) {
    w.shared.closed && SlotsIn(w.holds) == HandlesIn(w.holds) && w.shared.total == w.shared.borrowed
  }

  lemma {:induction false} SettlingStep(c: Config, w: World, e: Event)
    requires Inv(c, w) && Enabled(c, w, e) && Settling(w)
    ensures Settling(Apply(c, w, e))
  {
    hide Inv, Fire, SlotsIn, HandlesIn, SlotsOf, HandlesOf, ConnIn, ReqIn, DropIn;
    var x := Conn(0, 0);
    HandlesAre(c, w);
    TakenSplit(w, e, x, 0);
    OpeningHoldsSlots(Others(w, e));
    OpeningHoldsSlots(Taken(w, e));
    if UsesHold(e) { SumOne(w.holds[e.i], x, 0); }
    SettlingCounters(c, w, e);
    NewHolds(c, w, e);
    SumAppend(Others(w, e), Fire(c, w, e).holds, x, 0);
  }

  lemma {:induction false} SettlingCounters(c: Config, w: World, e: Event)
    requires Enabled(c, w, e) && w.shared.closed && w.shared.total == w.shared.borrowed >= 0
    requires UsesHold(e) ==> e.ShutdownPop? || e.ShutdownEnd? || SlotsOf(w.holds[e.i]) == HandlesOf(w.holds[e.i])
    ensures var s := Fire(c, w, e).s; s.closed && s.total == s.borrowed
  {
  }

  /** What a closed pool's regions leave when they held nothing in flight. */
  lemma {:induction false} NewHolds(c: Config, w: World, e: Event)
    requires Enabled(c, w, e) && w.shared.closed
    requires UsesHold(e) ==> SlotsOf(w.holds[e.i]) == HandlesOf(w.holds[e.i])
    ensures SlotsIn(Fire(c, w, e).holds) == HandlesIn(Fire(c, w, e).holds)
  {
    var s, x := w.shared, Conn(0, 0);
    match e {
      case Expire(now, stopped) => SumExpirations(Expired(s.waiters, now, stopped), stopped, x, 0);
      case HealthRefilled(i, now, conns) => SumRetirements(conns, x, 0);
      case ShutdownEnd(i) => SumClosures(w.holds[i].drained, x, 0);
      case ShutdownBegin => SumOne(Closing(s.waiters), x, 0);
      case ShutdownPop(i) => SumTwo(Closing(w.holds[i].drained), Retired(s.idle[0].conn), x, 0);
      case _ => ShortHolds(c, w, e);
    }
  }

  lemma {:induction false} ShortHolds(c: Config, w: World, e: Event)
    requires Enabled(c, w, e) && w.shared.closed
    requires !e.Expire? && !e.HealthRefilled? && !e.ShutdownEnd? && !e.ShutdownBegin? && !e.ShutdownPop?
    requires UsesHold(e) ==> SlotsOf(w.holds[e.i]) == HandlesOf(w.holds[e.i])
    ensures SlotsIn(Fire(c, w, e).holds) == HandlesIn(Fire(c, w, e).holds)
  {
    forall h: Hold ensures SlotsIn([h]) == SlotsOf(h) && HandlesIn([h]) == HandlesOf(h) { SumOne(h, Conn(0, 0), 0); }
  }

  /** Once closed with nothing in flight and `total` equal to the handles out, it stays so: from then on every return
      takes one off both. */
  lemma {:induction false} TotalCountsHandles(c: Config, ws: seq<World>, es: seq<Event>, j: nat, k: nat)
    requires IsRun(c, ws, es) && j <= k <= |es| && Settling(ws[j])
    ensures Settling(ws[k]) && ws[k].shared.total == HandlesIn(ws[k].holds)
    decreases k
  {
    hide Apply, Enabled, Inv, SlotsIn, HandlesIn;
    RunInv(c, ws, es, k);
    HandlesAre(c, ws[k]);
    if j < k {
      TotalCountsHandles(c, ws, es, j, k - 1);
      RunInv(c, ws, es, k - 1);
      var w, e := ws[k - 1], es[k - 1];
      assert ws[k] == Apply(c, w, e);
      SettlingStep(c, w, e);
    }
  }

  lemma {:induction false} HandlesAre(c: Config, w: World)
    requires Inv(c, w)
    ensures w.shared.borrowed == HandlesIn(w.holds)
  {
  }

  /** A shutdown that ends with nothing in flight establishes it. */
  lemma {:induction false} ShutdownSettles(c: Config, ws: seq<World>, es: seq<Event>, k: nat)
    requires IsRun(c, ws, es) && k < |es| && es[k].ShutdownEnd?
      && SlotsIn(ws[k + 1].holds) == HandlesIn(ws[k + 1].holds)
    ensures Settling(ws[k + 1])
  {
    RunInv(c, ws, es, k);
    assert ws[k].holds[es[k].i] in ws[k].holds;
    assert ws[k + 1] == Apply(c, ws[k], es[k]);
  }
}

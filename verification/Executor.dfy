/**
  The thread-pool executor: posting, delayed tasks, worker and timer loops, and
  shutdown, as atomic regions under the executor's lock. Tasks are numbered as
  they are accepted; `begun` lists every task whose body was entered, in order.
*/
module Executor {
  import opened Counting

  datatype Delayed = Delayed(deadline: nat, seq_: nat, id: nat)

  datatype Worker = Waiting | Running(id: nat) | Exited

  datatype Timer = NoTimer | TimerWaiting | TimerRunning(id: nat) | TimerExited

  /** The thread inside shutdown; `todo` holds the delayed tasks it took over. */
  datatype Shutdown = NotCalled | Draining(todo: seq<nat>) | JoiningTimer | JoiningWorkers | Returned

  datatype State = State(
    limit: nat, threads: nat, now: nat,
    queue: seq<nat>, continuations: set<nat>,   // which accepted tasks were posted as continuations
    delayed: seq<Delayed>, begun: seq<nat>, next: nat, nextSeq: nat,
    started: bool, stopping: bool, workers: seq<Worker>, timer: Timer, shutdown: Shutdown,
    active: nat, submitted: nat, completed: nat, rejected: nat)

  datatype Event =
    | Tick(now: nat)
    | Post | PostContinuation | PostAfter(delay: int)
    | WorkerTake(w: nat) | WorkerDone(w: nat) | WorkerExit(w: nat)
    | TimerTake | TimerDone | TimerExit
    | ShutdownCalled | DrainNext | DrainDone | TimerJoined | WorkersJoined

  predicate Init(s: State) {
    && s.limit >= 1 && s.threads >= 1
    && s.queue == [] && s.continuations == {} && s.delayed == [] && s.begun == [] && s.next == 0 && s.nextSeq == 0
    && !s.started && !s.stopping && s.workers == [] && s.timer.NoTimer? && s.shutdown.NotCalled?
    && s.active == 0 && s.submitted == 0 && s.completed == 0 && s.rejected == 0
  }

  /** The order of the priority queue: by deadline, then by sequence number. */
  predicate Before(a: Delayed, b: Delayed) { a.deadline < b.deadline || (a.deadline == b.deadline && a.seq_ < b.seq_) }

  function Insert(q: seq<Delayed>, d: Delayed): seq<Delayed> {
    if q == [] || Before(d, q[0]) then [d] + q else [q[0]] + Insert(q[1..], d)
  }

  function Ids(q: seq<Delayed>): seq<nat> {
    if q == [] then [] else [q[0].id] + Ids(q[1..])
  }

  function Pool(n: nat): seq<Worker> { seq(n, i => Waiting) }

  predicate Enabled(s: State, e: Event) {
    match e
    case Tick(now) => s.now <= now
    case WorkerTake(w) => w < |s.workers| && s.workers[w].Waiting? && s.queue != []
    case WorkerDone(w) => w < |s.workers| && s.workers[w].Running? && s.active > 0
    case WorkerExit(w) => w < |s.workers| && s.workers[w].Waiting? && s.queue == [] && s.stopping
    case TimerTake => s.timer.TimerWaiting? && s.delayed != [] && s.delayed[0].deadline <= s.now
    case TimerDone => s.timer.TimerRunning?
    case TimerExit => s.timer.TimerWaiting? && s.delayed == [] && s.stopping
    case DrainNext => s.shutdown.Draining? && s.shutdown.todo != []
    case DrainDone => s.shutdown.Draining? && s.shutdown.todo == []
    case TimerJoined => s.shutdown.JoiningTimer? && (s.timer.NoTimer? || s.timer.TimerExited?)
    case WorkersJoined => s.shutdown.JoiningWorkers? && forall w <- s.workers :: w.Exited?
    case _ => true
  }

  predicate Takes(s: State, e: Event) {
    !s.stopping && (e.PostContinuation? || (e.Post? && |s.queue| < s.limit))
  }

  function Delay(s: State, delay: int): Delayed { Delayed(s.now + (if delay > 0 then delay else 0), s.nextSeq, s.next) }

  /** ensureStartedLocked. */
  function Ensured(s: State): State {
    s.(started := true, workers := if s.started then s.workers else Pool(s.threads),
       timer := if s.started then s.timer else TimerWaiting)
  }

  function Enqueue(s: State): State {
    Ensured(s).(queue := s.queue + [s.next], next := s.next + 1, submitted := s.submitted + 1)
  }

  function Fire(s: State, e: Event): State
    requires Enabled(s, e)
  {
    match e
    case Tick(now) => s.(now := now)
    case Post =>
      if Takes(s, e) then Enqueue(s)
      else if s.stopping then s else Ensured(s).(rejected := s.rejected + 1)
    case PostContinuation => if Takes(s, e) then Enqueue(s).(continuations := s.continuations + {s.next}) else s
    case PostAfter(delay) =>
      if s.stopping then s.(begun := s.begun + [s.next], next := s.next + 1)
      else Ensured(s).(delayed := Insert(s.delayed, Delay(s, delay)), next := s.next + 1, nextSeq := s.nextSeq + 1)
    case WorkerTake(w) =>
      s.(queue := s.queue[1..], workers := s.workers[w := Running(s.queue[0])], begun := s.begun + [s.queue[0]],
         active := s.active + 1)
    case WorkerDone(w) => s.(workers := s.workers[w := Waiting], active := s.active - 1, completed := s.completed + 1)
    case WorkerExit(w) => s.(workers := s.workers[w := Exited])
    case TimerTake =>
      s.(delayed := s.delayed[1..], timer := TimerRunning(s.delayed[0].id), begun := s.begun + [s.delayed[0].id])
    case TimerDone => s.(timer := TimerWaiting)
    case TimerExit => s.(timer := TimerExited)
    case ShutdownCalled =>
      s.(stopping := true, delayed := if s.stopping then s.delayed else [],
         shutdown := if s.stopping then s.shutdown else Draining(Ids(s.delayed)))
    case DrainNext => s.(shutdown := Draining(s.shutdown.todo[1..]), begun := s.begun + [s.shutdown.todo[0]])
    case DrainDone => s.(shutdown := JoiningTimer)
    case TimerJoined => s.(shutdown := JoiningWorkers)
    case WorkersJoined => s.(shutdown := Returned)
  }

  // ---------------------------------------------------------------- invariant

  function Busy(ws: seq<Worker>): nat {
    if ws == [] then 0 else (if ws[0].Running? then 1 else 0) + Busy(ws[1..])
  }

  function Todo(s: State): seq<nat> { if s.shutdown.Draining? then s.shutdown.todo else [] }

  /** In how many places task `id` is: waiting somewhere, or already begun. */
  function Places(s: State, id: nat): nat {
    Count(s.queue, id) + Count(Ids(s.delayed), id) + Count(Todo(s), id) + Count(s.begun, id)
  }

  predicate Sorted(q: seq<Delayed>) { forall i, j :: 0 <= i < j < |q| ==> Before(q[i], q[j]) }

  /** Counters are exact. */
  predicate Books(s: State) { s.submitted == |s.queue| + s.active + s.completed && s.active == Busy(s.workers) }

  function ContinuationsIn(ids: seq<nat>, continuations: set<nat>): nat {
    if ids == [] then 0
    else (if ids[0] in continuations then 1 else 0) + ContinuationsIn(ids[1..], continuations)
  }

  /** The queue exceeds its limit by continuations only. */
  predicate Limited(s: State) { |s.queue| <= s.limit + ContinuationsIn(s.queue, s.continuations) }

  predicate Timers(s: State) { Sorted(s.delayed) && forall d <- s.delayed :: d.seq_ < s.nextSeq }

  /** Threads and the stop flag. */
  predicate Threads(s: State) {
    && (!s.started ==> s.workers == [] && s.timer.NoTimer? && s.queue == [] && s.delayed == [])
    && (s.started ==> !s.timer.NoTimer? && s.workers != [])
    && (s.stopping <==> !s.shutdown.NotCalled?) && (s.stopping ==> s.delayed == [])
    && ((exists w <- s.workers :: w.Exited?) ==> s.stopping && s.queue == [])
    && (s.timer.TimerExited? ==> s.stopping)
    && (s.shutdown.JoiningWorkers? || s.shutdown.Returned? ==> s.timer.NoTimer? || s.timer.TimerExited?)
    && (s.shutdown.Returned? ==> forall w <- s.workers :: w.Exited?)
    && s.threads >= 1
  }

  ghost predicate Once(s: State) { forall id: nat :: Places(s, id) == if id < s.next then 1 else 0 }

  ghost predicate Inv(s: State) { Books(s) && Limited(s) && Timers(s) && Threads(s) && Once(s) }

  lemma {:induction false} InsertCount(q: seq<Delayed>, d: Delayed, id: nat)
    ensures Count(Ids(Insert(q, d)), id) == Count(Ids(q), id) + if d.id == id then 1 else 0
  {
    if q == [] || Before(d, q[0]) {
      assert ([d] + q)[1..] == q;
      assert ([d.id] + Ids(q))[1..] == Ids(q);
    } else {
      InsertCount(q[1..], d, id);
      var rest := Insert(q[1..], d);
      assert ([q[0]] + rest)[1..] == rest;
      assert ([q[0].id] + Ids(rest))[1..] == Ids(rest);
      assert ([q[0].id] + Ids(q[1..]))[1..] == Ids(q[1..]);
    }
  }

  lemma {:induction false} InsertMembers(q: seq<Delayed>, d: Delayed)
    ensures forall x :: x in Insert(q, d) <==> x in q || x == d
  {
    if q != [] && !Before(d, q[0]) { InsertMembers(q[1..], d); }
  }

  lemma {:induction false} InsertSorted(q: seq<Delayed>, d: Delayed)
    requires Sorted(q) && forall x <- q :: x.seq_ < d.seq_
    ensures Sorted(Insert(q, d))
  {
    if q == [] {
    } else if Before(d, q[0]) {
      forall j | 0 <= j < |q| ensures Before(d, q[j]) { }
    } else {
      InsertSorted(q[1..], d);
      InsertMembers(q[1..], d);
      var rest := Insert(q[1..], d);
      assert q[0] in q;
      forall j | 0 <= j < |rest| ensures Before(q[0], rest[j]) { assert rest[j] in q[1..] || rest[j] == d; }
    }
  }

  lemma {:induction false} BusyUpdate(ws: seq<Worker>, w: nat, x: Worker)
    requires w < |ws|
    ensures Busy(ws[w := x]) + (if ws[w].Running? then 1 else 0) == Busy(ws) + (if x.Running? then 1 else 0)
  {
    if w > 0 {
      BusyUpdate(ws[1..], w - 1, x);
      assert ws[w := x][1..] == ws[1..][w - 1 := x];
    } else {
      assert ws[w := x][1..] == ws[1..];
    }
  }

  lemma {:induction false} PoolIdle(ws: seq<Worker>)
    requires forall w <- ws :: w.Waiting?
    ensures Busy(ws) == 0
  {
    if ws != [] { assert ws[0] in ws; PoolIdle(ws[1..]); }
  }

  lemma {:induction false} StepBooks(s: State, e: Event)
    requires Inv(s) && Enabled(s, e)
    ensures Books(Fire(s, e))
  {
    hide Busy, Once, Timers, Insert;
    PoolIdle(Pool(s.threads));
    PoolIdle([]);
    match e
    case WorkerTake(w) => BusyUpdate(s.workers, w, Running(s.queue[0]));
    case WorkerDone(w) => BusyUpdate(s.workers, w, Waiting);
    case WorkerExit(w) => BusyUpdate(s.workers, w, Exited);
    case _ =>
  }

  lemma {:induction false} ContinuationsSnoc(ids: seq<nat>, id: nat, a: set<nat>, b: set<nat>)
    requires a <= b
    ensures ContinuationsIn(ids + [id], b) >= ContinuationsIn(ids, a) + (if id in b then 1 else 0)
  {
    if ids == [] { assert ids + [id] == [id] && [id][1..] == []; } else {
      ContinuationsSnoc(ids[1..], id, a, b);
      assert (ids + [id])[1..] == ids[1..] + [id];
    }
  }

  lemma {:induction false} StepLimited(s: State, e: Event)
    requires Inv(s) && Enabled(s, e)
    ensures Limited(Fire(s, e))
  {
    hide Once, Timers, Threads, Books, Insert, Ids;
    ContinuationsSnoc(s.queue, s.next, s.continuations, s.continuations);
    ContinuationsSnoc(s.queue, s.next, s.continuations, s.continuations + {s.next});
  }

  lemma {:induction false} StepTimers(s: State, e: Event)
    requires Inv(s) && Enabled(s, e)
    ensures Timers(Fire(s, e))
  {
    hide Once, Books, Threads, Insert;
    if e.PostAfter? && !s.stopping {
      InsertSorted(s.delayed, Delay(s, e.delay));
      InsertMembers(s.delayed, Delay(s, e.delay));
    }
    if e.TimerTake? { assert forall d <- s.delayed[1..] :: d in s.delayed; }
  }

  lemma {:induction false} StepThreads(s: State, e: Event)
    requires Inv(s) && Enabled(s, e)
    ensures Threads(Fire(s, e))
  {
    hide Once, Books, Timers, Insert, Ids;
    var t := Fire(s, e);
    if e.WorkerTake? || e.WorkerDone? || e.WorkerExit? {
      forall i | 0 <= i < |t.workers| && t.workers[i].Exited? ensures t.stopping && t.queue == [] {
        if i != e.w { assert s.workers[i] in s.workers; }
      }
      assert s.workers[e.w] in s.workers;
    }
  }

  lemma {:induction false} StepOnce(s: State, e: Event, id: nat)
    requires Inv(s) && Enabled(s, e)
    ensures Places(Fire(s, e), id) == if id < Fire(s, e).next then 1 else 0
  {
    hide Books, Timers, Insert, Ids, Count, Busy;
    assert Places(s, id) == if id < s.next then 1 else 0;
    NoneLeft(id);
    match e
    case Post => CountSnoc(s.queue, s.next, id);
    case PostContinuation => CountSnoc(s.queue, s.next, id);
    case PostAfter(delay) =>
      CountSnoc(s.begun, s.next, id);
      InsertCount(s.delayed, Delay(s, delay), id);
    case WorkerTake(w) => CountSnoc(s.begun, s.queue[0], id); CountFirst(s.queue, id);
    case TimerTake => CountSnoc(s.begun, s.delayed[0].id, id); IdsFirst(s.delayed, id);
    case DrainNext => CountSnoc(s.begun, s.shutdown.todo[0], id); CountFirst(s.shutdown.todo, id);
    case _ =>
  }

  lemma {:induction false} NoneLeft(id: nat)
    ensures Count([], id) == 0 && Ids([]) == []
  {
  }

  lemma {:induction false} IdsFirst(q: seq<Delayed>, id: nat)
    requires q != []
    ensures Count(Ids(q), id) == (if q[0].id == id then 1 else 0) + Count(Ids(q[1..]), id)
  {
    assert ([q[0].id] + Ids(q[1..]))[1..] == Ids(q[1..]);
  }

  /** Every atomic step keeps the invariant. */
  lemma {:induction false} StepInv(s: State, e: Event)
    requires Inv(s) && Enabled(s, e)
    ensures Inv(Fire(s, e))
  {
    hide Books, Limited, Timers, Threads, Places, Fire, Enabled;
    StepBooks(s, e);
    StepLimited(s, e);
    StepTimers(s, e);
    StepThreads(s, e);
    forall id: nat ensures Places(Fire(s, e), id) == if id < Fire(s, e).next then 1 else 0 { StepOnce(s, e, id); }
  }

  lemma {:induction false} InitInv(s: State)
    requires Init(s)
    ensures Inv(s)
  {
  }

  // --------------------------------------------------------------------- runs

  ghost predicate IsRun(states: seq<State>, events: seq<Event>) {
    && |states| == |events| + 1 && Init(states[0])
    && forall i :: 0 <= i < |events| ==> Enabled(states[i], events[i]) && states[i + 1] == Fire(states[i], events[i])
  }

  lemma {:induction false} RunInv(states: seq<State>, events: seq<Event>, i: nat)
    requires IsRun(states, events) && i < |states|
    ensures Inv(states[i])
  {
    hide Inv, Fire, Enabled, Init;
    if i == 0 { InitInv(states[0]); } else {
      RunInv(states, events, i - 1);
      StepInv(states[i - 1], events[i - 1]);
    }
  }

  /** submitted = queued + active + completed, and no task is ever begun twice. */
  lemma {:induction false} WorkIsConserved(states: seq<State>, events: seq<Event>, i: nat, id: nat)
    requires IsRun(states, events) && i < |states|
    ensures var s := states[i];
      && s.submitted == |s.queue| + s.active + s.completed && s.active == Busy(s.workers)
      && Count(s.begun, id) <= 1 && (id >= s.next ==> Count(s.begun, id) == 0)
  {
    hide Fire, Enabled, Init, Count;
    RunInv(states, events, i);
    assert Places(states[i], id) <= 1;
  }

  /** In every state the queue exceeds its limit by at most the continuations in it; an ordinary post is taken exactly
      when the executor runs and the queue is below the limit. */
  lemma {:induction false} PostsRespectLimit(states: seq<State>, events: seq<Event>, i: nat)
    requires IsRun(states, events) && i < |states|
    ensures |states[i].queue| <= states[i].limit + ContinuationsIn(states[i].queue, states[i].continuations)
    ensures i < |events| && events[i].Post? ==>
      (states[i + 1].submitted == states[i].submitted + 1 <==>
        !states[i].stopping && |states[i].queue| < states[i].limit)
  {
    hide Init, Once, Threads, Timers, Books, Insert;
    RunInv(states, events, i);
    if i < |events| { assert states[i + 1] == Fire(states[i], events[i]); }
  }

  /** Nothing waits or runs, and every task accepted so far was begun exactly once. */
  ghost predicate NothingLeft(s: State) {
    && s.queue == [] && s.delayed == [] && Todo(s) == [] && s.active == 0 && !s.timer.TimerRunning?
    && s.submitted == s.completed
    && forall id: nat :: id < s.next ==> Count(s.begun, id) == 1
  }

  /** From the moment the first shutdown has returned, nothing is left. */
  lemma {:induction false} ShutdownLeavesNothing(states: seq<State>, events: seq<Event>, i: nat)
    requires IsRun(states, events) && i < |states| && states[i].shutdown.Returned?
    ensures NothingLeft(states[i])
  {
    hide Fire, Enabled, Init, Count, Busy, Limited;
    RunInv(states, events, i);
    var s := states[i];
    if s.started {
      assert s.workers[0] in s.workers;
      assert s.workers[0].Exited?;
    }
    AllExited(s.workers);
    forall id: nat | id < s.next ensures Count(s.begun, id) == 1 {
      NoneLeft(id);
      assert Places(s, id) == 1;
    }
  }

  /** A call of shutdown returns at step `i`: the one that stopped the executor, after joining its threads, or a later
      one, which finds the flag set and returns at once. */
  predicate Returns(s: State, e: Event) { e.WorkersJoined? || (e.ShutdownCalled? && s.stopping) }

  /** A returning call leaves nothing if it is the one that stopped the executor, or if that one had returned before. */
  lemma {:induction false} ReturningLeavesNothing(states: seq<State>, events: seq<Event>, i: nat)
    requires IsRun(states, events) && i < |events| && Returns(states[i], events[i])
    requires events[i].WorkersJoined? || states[i].shutdown.Returned?
    ensures NothingLeft(states[i + 1])
  {
    hide NothingLeft, Init;
    assert states[i + 1] == Fire(states[i], events[i]);
    ShutdownLeavesNothing(states, events, i + 1);
  }

  /** Otherwise it need not: here the second call returns while the first is still draining and a task is queued. */
  lemma {:induction false} SecondShutdownReturnsEarly() returns (states: seq<State>, events: seq<Event>)
    ensures IsRun(states, events) && |events| == 3
    ensures Returns(states[2], events[2]) && !states[2].shutdown.Returned? && states[3].queue == [0]
    ensures !NothingLeft(states[3])
  {
    var s := State(1, 1, 0, [], {}, [], [], 0, 0, false, false, [], NoTimer, NotCalled, 0, 0, 0, 0);
    events := [Post, ShutdownCalled, ShutdownCalled];
    var t := Fire(s, Post);
    var u := Fire(t, ShutdownCalled);
    states := [s, t, u, Fire(u, ShutdownCalled)];
  }

  lemma {:induction false} AllExited(ws: seq<Worker>)
    requires forall w <- ws :: w.Exited?
    ensures Busy(ws) == 0
  {
    if ws != [] { assert ws[0] in ws; AllExited(ws[1..]); }
  }

  /** The timer begins a delayed task not before its deadline and ahead of every other delayed task. */
  lemma {:induction false} TimerOrder(states: seq<State>, events: seq<Event>, i: nat)
    requires IsRun(states, events) && i < |events| && events[i].TimerTake?
    ensures var s, t := states[i], states[i + 1]; var d := s.delayed[0];
      && d.deadline <= s.now && t.begun == s.begun + [d.id]
      && forall x <- t.delayed :: Before(d, x)
  {
    hide Once, Books, Threads, Insert;
    RunInv(states, events, i);
    var s, t := states[i], states[i + 1];
    assert t == Fire(s, events[i]);
    forall x | x in t.delayed ensures Before(s.delayed[0], x) {
      var j :| 0 <= j < |s.delayed| - 1 && s.delayed[1..][j] == x;
      assert x == s.delayed[j + 1];
    }
  }

  /** What shutdown takes over it begins in the same order. */
  lemma {:induction false} ShutdownOrder(states: seq<State>, events: seq<Event>, i: nat)
    requires IsRun(states, events) && i < |events| && events[i].ShutdownCalled? && !states[i].stopping
    ensures states[i + 1].shutdown == Draining(Ids(states[i].delayed)) && Sorted(states[i].delayed)
    ensures states[i + 1].delayed == [] && states[i + 1].stopping
  {
    hide Once, Books, Threads, Insert, Ids;
    RunInv(states, events, i);
    assert states[i + 1] == Fire(states[i], events[i]);
  }
}

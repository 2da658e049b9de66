/**
  The write buffer: accepted writes are numbered in order of acceptance and
  wait in a bounded queue; one worker swaps the queue out, tries each write,
  merges what must be retried back in front of what arrived meanwhile, and on
  stop makes one final pass. Any number of threads may call start and stop.
*/
module WriteBuffer {
  import opened Counting

  datatype Worker = Absent | Waiting | Flushing(final: bool) | Merging(final: bool) | Closing | Exited

  datatype Outcome = Flushed | Retryable | Failed | Expired

  datatype State = State(
    enabled: bool, cap: int, q: seq<nat>, batch: seq<nat>, retry: seq<nat>,
    flushed: seq<nat>, dropped: seq<nat>, abandoned: nat, next: nat,
    running: bool, stop: bool, worker: Worker,
    joinable: bool,     // the thread object stands for a worker that nobody has joined
    joining: nat,       // calls of stop between their first region and the end of the join
    leaving: nat,       // calls of stop between the join and their last region
    terminated: bool)   // a new thread was assigned over a joinable one

  datatype Event =
    | Enqueue | Start | StopCalled | StopJoined | StopReturned
    | Swap | TryFirst(outcome: Outcome) | BatchDone | Merge | SkipMerge | Close

  predicate Init(s: State) {
    && s.q == [] && s.batch == [] && s.retry == [] && s.flushed == [] && s.dropped == [] && s.abandoned == 0
    && s.next == 0 && !s.running && !s.stop && s.worker.Absent? && !s.joinable
    && s.joining == 0 && s.leaving == 0 && !s.terminated
  }

  predicate Enabled(s: State, e: Event) {
    !s.terminated &&
    match e
    case Enqueue => true
    case Start => true
    case StopCalled => true
    case StopJoined => s.joining > 0 && (s.joinable ==> s.worker.Exited?)
    case StopReturned => s.leaving > 0
    case Swap => s.worker.Waiting?
    case TryFirst(_) => s.worker.Flushing? && s.batch != []
    case BatchDone => s.worker.Flushing? && s.batch == []
    case Merge => s.worker.Merging? && s.retry != []
    case SkipMerge => s.worker.Merging? && s.retry == []
    case Close => s.worker.Closing?
  }

  /** A call of start takes effect. */
  predicate Starts(s: State) { s.enabled && !s.running }

  predicate Accepts(s: State) { s.enabled && !s.stop && s.running && |s.q| < s.cap }

  /** The first `cap` of a list, and the rest. */
  function Kept(all: seq<nat>, cap: int): seq<nat> { if cap <= 0 then [] else if |all| <= cap then all else all[..cap] }

  function Excess(all: seq<nat>, cap: int): seq<nat> {
    if cap <= 0 then all else if |all| <= cap then [] else all[cap..]
  }

  predicate Again(s: State, o: Outcome) { o.Retryable? && s.worker.Flushing? && !s.worker.final }

  function Fire(s: State, e: Event): State
    requires Enabled(s, e)
  {
    match e
    case Enqueue =>
      s.(q := if Accepts(s) then s.q + [s.next] else s.q, next := if Accepts(s) then s.next + 1 else s.next)
    case Start =>
      if !Starts(s) then s
      else if s.joinable then s.(terminated := true)
      else s.(running := true, stop := false, worker := Waiting, joinable := true)
    case StopCalled => if s.running then s.(stop := true, joining := s.joining + 1) else s
    case StopJoined => s.(joining := s.joining - 1, leaving := s.leaving + 1, joinable := false)
    case StopReturned => s.(leaving := s.leaving - 1, running := false)
    case Swap => s.(worker := Flushing(s.stop), batch := s.q, q := [])
    case TryFirst(o) =>
      s.(batch := s.batch[1..],
         retry := if Again(s, o) then s.retry + [s.batch[0]] else s.retry,
         flushed := if o.Flushed? then s.flushed + [s.batch[0]] else s.flushed,
         dropped := if !o.Flushed? && !Again(s, o) then s.dropped + [s.batch[0]] else s.dropped)
    case BatchDone => s.(worker := Merging(s.worker.final))
    case Merge =>
      s.(worker := if s.worker.final then Closing else Waiting, retry := [],
         q := Kept(s.retry + s.q, s.cap), dropped := s.dropped + Excess(s.retry + s.q, s.cap))
    case SkipMerge => s.(worker := if s.worker.final then Closing else Waiting)
    case Close => s.(worker := Exited, dropped := s.dropped + s.q, abandoned := s.abandoned + |s.q|, q := [])
  }

  // ---------------------------------------------------------------- invariant

  /** Everything accepted and not yet settled, oldest first. */
  function Pending(s: State): seq<nat> { s.retry + s.batch + s.q }

  function Places(s: State, id: nat): nat {
    Count(s.flushed, id) + Count(s.dropped, id) + Count(s.retry, id) + Count(s.batch, id) + Count(s.q, id)
  }

  predicate Increasing(ids: seq<nat>) { forall i, j :: 0 <= i < j < |ids| ==> ids[i] < ids[j] }

  predicate Numbered(ids: seq<nat>, next: nat) { Increasing(ids) && forall i :: 0 <= i < |ids| ==> ids[i] < next }

  predicate InOrder(s: State) { Numbered(Pending(s), s.next) }

  predicate Bounded(s: State) { |s.q| <= (if s.cap > 0 then s.cap else 0) }

  predicate Final(w: Worker) { w.Closing? || ((w.Flushing? || w.Merging?) && w.final) }

  predicate Gone(w: Worker) { w.Absent? || w.Exited? }

  predicate Control(s: State) {
    && (s.batch != [] ==> s.worker.Flushing?) && (s.retry != [] ==> s.worker.Flushing? || s.worker.Merging?)
    && (s.running ==> s.enabled && !s.worker.Absent?)
    && (Gone(s.worker) ==> s.q == []) && (!s.joinable ==> Gone(s.worker)) && (s.joinable ==> !s.worker.Absent?)
    && (s.worker.Exited? ==> s.stop)
    && (Final(s.worker) ==> s.stop && s.retry == [] && s.q == [])
    && s.abandoned == 0
  }

  ghost predicate Once(s: State) { forall id: nat :: Places(s, id) == if id < s.next then 1 else 0 }

  ghost predicate Inv(s: State) { InOrder(s) && Bounded(s) && Control(s) && Once(s) }

  lemma {:induction false} StepControl(s: State, e: Event)
    requires Inv(s) && Enabled(s, e)
    ensures Control(Fire(s, e)) && Bounded(Fire(s, e))
  {
    hide Once, InOrder;
  }

  /** Leaving elements out, or adding the next number, keeps the order. */
  lemma {:induction false} StillNumbered(p: seq<nat>, next: nat, k: nat)
    requires Numbered(p, next) && k <= |p|
    ensures Numbered(p[..k], next) && Numbered(p + [next], next + 1)
      && (k < |p| ==> Numbered(p[..k] + p[k + 1..], next))
  {
    if k < |p| {
      var r := p[..k] + p[k + 1..];
      forall i | 0 <= i < |r| ensures r[i] == p[if i < k then i else i + 1] { }
    }
  }

  lemma {:induction false} FirstMoves(r: seq<nat>, b: seq<nat>, q: seq<nat>)
    requires b != []
    ensures (r + [b[0]]) + b[1..] + q == r + b + q
    ensures var p := r + b + q; r + b[1..] + q == p[..|r|] + p[|r| + 1..]
  {
    assert b == [b[0]] + b[1..];
  }

  lemma {:induction false} TryOrder(s: State, o: Outcome)
    requires InOrder(s) && Enabled(s, TryFirst(o))
    ensures InOrder(Fire(s, TryFirst(o)))
  {
    hide Numbered;
    FirstMoves(s.retry, s.batch, s.q);
    StillNumbered(Pending(s), s.next, |s.retry|);
  }

  lemma {:induction false} MergeOrder(s: State)
    requires InOrder(s) && Enabled(s, Merge) && s.batch == []
    ensures InOrder(Fire(s, Merge))
  {
    hide Numbered;
    var p, k := Pending(s), |Kept(s.retry + s.q, s.cap)|;
    assert p == s.retry + s.q;
    StillNumbered(p, s.next, k);
    assert Pending(Fire(s, Merge)) == Kept(p, s.cap) == p[..k];
  }

  lemma {:induction false} StepOrder(s: State, e: Event)
    requires Inv(s) && Enabled(s, e)
    ensures InOrder(Fire(s, e))
  {
    hide Once, Bounded, Accepts, Numbered;
    match e
    case TryFirst(o) => TryOrder(s, o);
    case Merge => MergeOrder(s);
    case Close =>
      StillNumbered(Pending(s), s.next, |s.retry + s.batch|);
      assert s.retry + s.batch + [] == Pending(s)[..|s.retry + s.batch|];
    case Enqueue =>
      StillNumbered(Pending(s), s.next, 0);
      assert s.retry + s.batch + (s.q + [s.next]) == Pending(s) + [s.next];
    case Swap => assert s.retry + s.q + [] == Pending(s);
    case _ =>
  }

  lemma {:induction false} CountSplit(all: seq<nat>, cap: int, id: nat)
    ensures Count(all, id) == Count(Kept(all, cap), id) + Count(Excess(all, cap), id)
  {
    if 0 < cap < |all| {
      assert all == all[..cap] + all[cap..];
      CountConcat(all[..cap], all[cap..], id);
    }
  }

  lemma {:induction false} Empty(id: nat)
    ensures Count([], id) == 0
  {
  }

  lemma {:induction false} TryPlaces(s: State, o: Outcome, id: nat)
    requires Enabled(s, TryFirst(o))
    ensures Places(Fire(s, TryFirst(o)), id) == Places(s, id)
  {
    hide Count;
    var x := s.batch[0];
    CountFirst(s.batch, id);
    CountSnoc(s.retry, x, id); CountSnoc(s.flushed, x, id); CountSnoc(s.dropped, x, id);
  }

  lemma {:induction false} MergePlaces(s: State, id: nat)
    requires Enabled(s, Merge)
    ensures Places(Fire(s, Merge), id) == Places(s, id)
  {
    hide Count, Kept, Excess;
    Empty(id);
    CountConcat(s.retry, s.q, id);
    CountSplit(s.retry + s.q, s.cap, id);
    CountConcat(s.dropped, Excess(s.retry + s.q, s.cap), id);
  }

  lemma {:induction false} StepOnce(s: State, e: Event, id: nat)
    requires Inv(s) && Enabled(s, e)
    ensures Places(Fire(s, e), id) == if id < Fire(s, e).next then 1 else 0
  {
    hide Bounded, InOrder, Count, Kept, Excess, Accepts;
    assert Places(s, id) == if id < s.next then 1 else 0;
    Empty(id);
    match e
    case Enqueue => CountSnoc(s.q, s.next, id);
    case TryFirst(o) => TryPlaces(s, o, id);
    case Merge => MergePlaces(s, id);
    case Close => CountConcat(s.dropped, s.q, id);
    case _ =>
  }

  /** Every atomic step keeps the invariant. */
  lemma {:induction false} StepInv(s: State, e: Event)
    requires Inv(s) && Enabled(s, e)
    ensures Inv(Fire(s, e))
  {
    hide Bounded, InOrder, Control, Places, Fire, Enabled;
    StepControl(s, e);
    StepOrder(s, e);
    forall id: nat ensures Places(Fire(s, e), id) == if id < Fire(s, e).next then 1 else 0 { StepOnce(s, e, id); }
  }

  // --------------------------------------------------------------------- runs

  ghost predicate IsRun(states: seq<State>, events: seq<Event>) {
    && |states| == |events| + 1 && Init(states[0])
    && forall i :: 0 <= i < |events| ==> Enabled(states[i], events[i]) && states[i + 1] == Fire(states[i], events[i])
  }

  lemma {:induction false} InitInv(s: State)
    requires Init(s)
    ensures Inv(s)
  {
  }

  lemma {:induction false} RunInv(states: seq<State>, events: seq<Event>, i: nat)
    requires IsRun(states, events) && i < |states|
    ensures Inv(states[i])
  {
    hide Inv, Fire, Enabled, Init;
    if i == 0 { InitInv(states[0]); } else {
      RunInv(states, events, i - 1);
      StepInv(states[i - 1], events[i - 1]);
    }
  }

  /** In every state the queue is within its bound and everything pending is in order of acceptance. */
  lemma {:induction false} BoundedAndInOrder(states: seq<State>, events: seq<Event>, i: nat)
    requires IsRun(states, events) && i < |states|
    ensures |states[i].q| <= (if states[i].cap > 0 then states[i].cap else 0) && Increasing(Pending(states[i]))
  {
    hide Fire, Enabled, Init, Once, Control;
    RunInv(states, events, i);
    assert Numbered(Pending(states[i]), states[i].next);
  }

  /** Each accepted write is, at any time, exactly one of flushed, dropped and pending; nothing else is anywhere. */
  lemma {:induction false} ExactlyOnePlace(states: seq<State>, events: seq<Event>, i: nat, id: nat)
    requires IsRun(states, events) && i < |states|
    ensures var s := states[i];
      Count(s.flushed, id) + Count(s.dropped, id) + Count(Pending(s), id) == if id < s.next then 1 else 0
  {
    hide Fire, Enabled, Init, Count, InOrder;
    RunInv(states, events, i);
    var s := states[i];
    CountConcat(s.retry + s.batch, s.q, id);
    CountConcat(s.retry, s.batch, id);
    assert Places(s, id) == if id < s.next then 1 else 0;
  }

  // ------------------------------------------------------------- start and stop

  /** A call of stop returns at this step: after waiting for the worker, or at once when nothing runs. */
  predicate StopReturns(s: State, e: Event) { e.StopReturned? || (e.StopCalled? && !s.running) }

  /** No start takes effect between the join and the last region of a stop. */
  predicate Orderly(s: State, e: Event) { e.Start? && Starts(s) ==> s.leaving == 0 }

  ghost predicate OrderlyTo(states: seq<State>, events: seq<Event>, n: nat)
    requires IsRun(states, events) && n <= |events|
  {
    forall i :: 0 <= i < n ==> Orderly(states[i], events[i])
  }

  /** What holds while starts keep out of the way of stops. */
  predicate Tidy(s: State) {
    (!s.running || s.leaving > 0 ==> Gone(s.worker) && !s.joinable) && !s.terminated
  }

  lemma {:induction false} StepTidy(s: State, e: Event)
    requires Control(s) && Tidy(s) && Enabled(s, e) && Orderly(s, e)
    ensures Tidy(Fire(s, e))
  {
    hide Kept, Excess;
  }

  lemma {:induction false} RunTidy(states: seq<State>, events: seq<Event>, i: nat)
    requires IsRun(states, events) && i <= |events| && OrderlyTo(states, events, i)
    ensures Tidy(states[i])
  {
    hide Fire, Enabled, InOrder, Bounded, Control, Once;
    if i > 0 {
      RunTidy(states, events, i - 1);
      RunInv(states, events, i - 1);
      StepTidy(states[i - 1], events[i - 1]);
    }
  }

  /** When any call of stop returns, of several at once too, nothing is pending: every accepted write has been flushed
      or dropped, once. The starts before it must have been orderly. */
  lemma {:induction false} StopLeavesNothing(states: seq<State>, events: seq<Event>, i: nat, id: nat)
    requires IsRun(states, events) && i < |events| && StopReturns(states[i], events[i]) && OrderlyTo(states, events, i)
    ensures var s := states[i + 1];
      && Pending(s) == [] && !s.running && Gone(s.worker)
      && (id < s.next ==> Count(s.flushed, id) + Count(s.dropped, id) == 1)
  {
    hide Fire, Init, Count, InOrder, Tidy;
    RunInv(states, events, i);
    RunTidy(states, events, i);
    assert states[i + 1] == Fire(states[i], events[i]);
    ExactlyOnePlace(states, events, i + 1, id);
    StopsClean(states[i], events[i]);
    Empty(id);
  }

  lemma {:induction false} StopsClean(s: State, e: Event)
    requires Control(s) && Tidy(s) && Enabled(s, e) && StopReturns(s, e)
    ensures var t := Fire(s, e); t.retry == [] && t.batch == [] && t.q == [] && !t.running && Gone(t.worker)
  {
  }

  /** No thread is ever assigned over one that was not joined, as long as starts are orderly. */
  lemma {:induction false} NeverTerminates(states: seq<State>, events: seq<Event>, i: nat)
    requires IsRun(states, events) && i <= |events| && OrderlyTo(states, events, i)
    ensures !states[i].terminated
  {
    RunTidy(states, events, i);
  }

  /** An orderly run leads to `s`. */
  ghost predicate Reached(s: State) {
    exists states, events :: IsRun(states, events) && OrderlyTo(states, events, |events|) && states[|events|] == s
  }

  /** The first start that is not orderly is one too many: a write accepted after it is still pending when the stop
      returns, no later stop waits for it, and the next start ends the process. */
  lemma {:induction false} DisorderlyStart(s: State)
    requires Reached(s) && s.cap > 0 && !Orderly(s, Start)
    ensures Enabled(s, Start) && Enabled(Fire(s, Start), Enqueue)
    ensures var t := Fire(Fire(s, Start), Enqueue);
      && Enabled(t, StopReturned)
      && var u := Fire(t, StopReturned);
      && Pending(u) == [s.next] && u.worker.Waiting? && Enabled(u, StopCalled) && Fire(u, StopCalled) == u
      && Enabled(u, Start) && Fire(u, Start).terminated
  {
    hide Init, InOrder, Once;
    var states, events :| IsRun(states, events) && OrderlyTo(states, events, |events|) && states[|events|] == s;
    RunInv(states, events, |events|);
    RunTidy(states, events, |events|);
  }

  lemma {:induction false} Then(s: State, e: Event, t: State)
    requires Reached(s) && Enabled(s, e) && Orderly(s, e) && t == Fire(s, e)
    ensures Reached(t)
  {
    hide Init, Enabled, Fire, Orderly;
    var states, events :| IsRun(states, events) && OrderlyTo(states, events, |events|) && states[|events|] == s;
    var states', events' := states + [t], events + [e];
    forall i | 0 <= i < |events'|
      ensures Enabled(states'[i], events'[i]) && states'[i + 1] == Fire(states'[i], events'[i])
      ensures Orderly(states'[i], events'[i])
    {
      if i < |events| {
        assert Enabled(states[i], events[i]) && states[i + 1] == Fire(states[i], events[i]);
        assert Orderly(states[i], events[i]);
      }
    }
    assert IsRun(states', events') && OrderlyTo(states', events', |events'|);
  }

  /** A buffer for one write that has had none. */
  function Unused(running: bool, stop: bool, w: Worker, joinable: bool, joining: nat, leaving: nat): State {
    State(true, 1, [], [], [], [], [], 0, 0, running, stop, w, joinable, joining, leaving, false)
  }

  lemma {:induction false} TwoStopsBegin()
    ensures Reached(Unused(true, true, Waiting, true, 2, 0))
  {
    hide Reached;
    var s := Unused(false, false, Absent, false, 0, 0);
    assert Reached(s) by { Nothing(s); }
    Then(s, Start, Unused(true, false, Waiting, true, 0, 0));
    Then(Unused(true, false, Waiting, true, 0, 0), StopCalled, Unused(true, true, Waiting, true, 1, 0));
    Then(Unused(true, true, Waiting, true, 1, 0), StopCalled, Unused(true, true, Waiting, true, 2, 0));
  }

  lemma {:induction false} Nothing(s: State)
    requires Init(s)
    ensures Reached(s)
  {
    assert IsRun([s], []) && OrderlyTo([s], [], 0);
  }

  lemma {:induction false} WorkerEnds()
    ensures Reached(Unused(true, true, Exited, true, 2, 0))
  {
    hide Reached;
    TwoStopsBegin();
    Then(Unused(true, true, Waiting, true, 2, 0), Swap, Unused(true, true, Flushing(true), true, 2, 0));
    Then(Unused(true, true, Flushing(true), true, 2, 0), BatchDone, Unused(true, true, Merging(true), true, 2, 0));
    Then(Unused(true, true, Merging(true), true, 2, 0), SkipMerge, Unused(true, true, Closing, true, 2, 0));
    Then(Unused(true, true, Closing, true, 2, 0), Close, Unused(true, true, Exited, true, 2, 0));
  }

  /** Two calls of stop at once, of which one has returned, lead to where a start is not orderly. */
  lemma {:induction false} DisorderIsReachable() returns (s: State)
    ensures Reached(s) && s.cap > 0 && !Orderly(s, Start)
  {
    hide Reached;
    WorkerEnds();
    Then(Unused(true, true, Exited, true, 2, 0), StopJoined, Unused(true, true, Exited, false, 1, 1));
    Then(Unused(true, true, Exited, false, 1, 1), StopJoined, Unused(true, true, Exited, false, 0, 2));
    s := Unused(false, true, Exited, false, 0, 1);
    Then(Unused(true, true, Exited, false, 0, 2), StopReturned, s);
  }

  /** A stop is called only while no other one is on its way. */
  ghost predicate OneStopAtATime(states: seq<State>, events: seq<Event>)
    requires IsRun(states, events)
  {
    forall i :: 0 <= i < |events| && events[i].StopCalled? ==> states[i].joining + states[i].leaving == 0
  }

  predicate AtMostOneStop(s: State) {
    s.joining + s.leaving <= 1 && (s.joining + s.leaving == 1 ==> s.running)
  }

  lemma {:induction false} StepOneStop(s: State, e: Event)
    requires AtMostOneStop(s) && Enabled(s, e) && (e.StopCalled? ==> s.joining + s.leaving == 0)
    ensures AtMostOneStop(Fire(s, e))
  {
    hide Kept, Excess, Again, Accepts;
  }

  lemma {:induction false} OneStop(states: seq<State>, events: seq<Event>, i: nat)
    requires IsRun(states, events) && OneStopAtATime(states, events) && i <= |events|
    ensures AtMostOneStop(states[i])
  {
    hide Fire, Enabled;
    if i > 0 {
      OneStop(states, events, i - 1);
      StepOneStop(states[i - 1], events[i - 1]);
    }
  }

  /** Starts that race a single stop are orderly: they find the buffer still running. */
  lemma {:induction false} OneStopIsOrderly(states: seq<State>, events: seq<Event>)
    requires IsRun(states, events) && OneStopAtATime(states, events)
    ensures OrderlyTo(states, events, |events|)
  {
    hide Fire, Enabled, Init;
    forall i | 0 <= i < |events| ensures Orderly(states[i], events[i]) { OneStop(states, events, i); }
  }

  /** The abandon branch of the final pass never finds anything to abandon. */
  lemma {:induction false} NothingIsAbandoned(states: seq<State>, events: seq<Event>, i: nat)
    requires IsRun(states, events) && i < |states|
    ensures states[i].abandoned == 0 && (states[i].worker.Closing? ==> states[i].q == [])
  {
    hide Fire, Enabled, Init, Once, InOrder;
    RunInv(states, events, i);
  }

  // --------------------------------------------------------------- the object

  class Buffer {
    const enabled: bool
    const maxQueue: int
    var q: seq<nat>
    var batch: seq<nat>
    var retry: seq<nat>
    var running: bool
    var stop: bool
    var next: nat
    ghost var model: State

    ghost predicate Valid() reads this {
      && enabled == model.enabled && maxQueue == model.cap && q == model.q && batch == model.batch
      && retry == model.retry
      && running == model.running && stop == model.stop && next == model.next && Inv(model) && !model.terminated
    }

    constructor (enabled: bool, maxQueue: int)
      ensures Valid() && Init(model)
    {
      this.enabled, this.maxQueue := enabled, maxQueue;
      q, batch, retry, running, stop, next := [], [], [], false, false, 0;
      model := State(enabled, maxQueue, [], [], [], [], [], 0, 0, false, false, Absent, false, 0, 0, false);
      new;
      InitInv(model);
    }

    ghost method Follow(e: Event)
      requires Inv(model) && Enabled(model, e)
      modifies this`model
      ensures Inv(model) && model == Fire(old(model), e)
    {
      StepInv(model, e);
      model := Fire(model, e);
    }

    /** enqueue. */
    method TryEnqueue() returns (accepted: bool)
      requires Valid()
      modifies this
      ensures Valid() && model == Fire(old(model), Enqueue)
      ensures accepted <==> old(enabled && !stop && running && |q| < maxQueue)
      ensures q == (if accepted then old(q) + [old(next)] else old(q))
    {
      hide InOrder, Bounded, Control, Once;
      Follow(Enqueue);
      if !enabled || stop || !running || |q| >= maxQueue { return false; }
      q := q + [next];
      next := next + 1;
      accepted := true;
    }

    /** The region that swaps the queue out. */
    method SwapOut() returns (final: bool)
      requires Valid() && Enabled(model, Swap)
      modifies this
      ensures Valid() && model == Fire(old(model), Swap) && final == stop
    {
      hide InOrder, Bounded, Control, Once;
      final := stop;
      batch, q := q, [];
      Follow(Swap);
    }

    /** The region that puts retries back in front of newer writes, keeping what fits. */
    method MergeBack() returns (dropped: seq<nat>)
      requires Valid() && Enabled(model, Merge)
      modifies this
      ensures Valid() && model == Fire(old(model), Merge)
      ensures q + dropped == old(retry) + old(q) && retry == []
      ensures dropped != [] ==> |q| >= maxQueue
    {
      hide InOrder, Bounded, Control, Once, Kept, Excess;
      ghost var all := retry + q;
      while q != []
        invariant retry + q == all && model == old(model) && batch == old(batch)
        invariant running == old(running) && stop == old(stop) && next == old(next)
        decreases |q|
      {
        retry := retry + [q[0]];
        q := q[1..];
      }
      dropped := [];
      while retry != []
        invariant q + dropped + retry == all && model == old(model) && batch == old(batch)
        invariant running == old(running) && stop == old(stop) && next == old(next)
        invariant dropped != [] ==> |q| >= maxQueue
        invariant |q| <= maxQueue || q == []
        decreases |retry|
      {
        if |q| >= maxQueue { dropped := dropped + [retry[0]]; } else { q := q + [retry[0]]; }
        retry := retry[1..];
      }
      Cut(all, q, dropped, maxQueue);
      Follow(Merge);
    }
  }

  lemma {:induction false} Cut(all: seq<nat>, a: seq<nat>, b: seq<nat>, cap: int)
    requires a + b == all && (b != [] ==> |a| >= cap) && (|a| <= cap || a == [])
    ensures a == Kept(all, cap) && b == Excess(all, cap)
  {
    if b == [] { assert all == a; }
    else if cap > 0 { assert all[..cap] == a && all[cap..] == b; }
    else { assert all == b; }
  }
}

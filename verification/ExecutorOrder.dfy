/** When the executor begins a task: queued ones in order of posting, delayed ones not before they are due. */
module ExecutorOrder {
  import opened Counting
  import opened Executor

  predicate Increasing(ids: seq<nat>) { forall i, j :: 0 <= i < j < |ids| ==> ids[i] < ids[j] }

  /** Tasks are numbered as they are accepted; the queue holds them in that order. */
  predicate InOrder(s: State) { Increasing(s.queue) && forall i :: 0 <= i < |s.queue| ==> s.queue[i] < s.next }

  lemma {:induction false} StepInOrder(s: State, e: Event)
    requires InOrder(s) && Enabled(s, e)
    ensures InOrder(Fire(s, e)) && s.next <= Fire(s, e).next
  {
    hide Insert, Ids, Pool;
    QueueStep(s, e);
    var q := Fire(s, e).queue;
    if q != s.queue && !e.WorkerTake? {
      forall i | 0 <= i < |q| ensures q[i] < s.next + 1 { assert i < |s.queue| ==> q[i] == s.queue[i]; }
    }
  }

  lemma {:induction false} QueueStep(s: State, e: Event)
    requires Enabled(s, e)
    ensures var t := Fire(s, e);
      && s.next <= t.next <= s.next + 1
      && (e.WorkerTake? ==> t.queue == s.queue[1..] && t.next == s.next)
      && (!e.WorkerTake? ==> t.queue == s.queue || (t.queue == s.queue + [s.next] && t.next == s.next + 1))
  {
    hide Insert, Ids, Pool;
  }

  lemma {:induction false} RunInOrder(states: seq<State>, events: seq<Event>, i: nat)
    requires IsRun(states, events) && i < |states|
    ensures InOrder(states[i])
  {
    hide Fire, Enabled;
    if i > 0 {
      RunInOrder(states, events, i - 1);
      StepInOrder(states[i - 1], events[i - 1]);
    }
  }

  /** A worker begins the task that was posted first of all that are queued. */
  lemma {:induction false} FirstPostedFirst(states: seq<State>, events: seq<Event>, i: nat)
    requires IsRun(states, events) && i < |events| && events[i].WorkerTake?
    ensures var s, t := states[i], states[i + 1];
      |t.begun| == |s.begun| + 1 && t.begun[..|s.begun|] == s.begun
      && t.begun[|s.begun|] in s.queue && forall id <- t.queue :: t.begun[|s.begun|] < id
  {
    hide Insert, Ids, Pool;
    RunInOrder(states, events, i);
    var s, t := states[i], states[i + 1];
    assert t == Fire(s, events[i]);
    forall id <- t.queue ensures s.queue[0] < id {
      var j :| 0 <= j < |t.queue| && t.queue[j] == id;
      assert s.queue[j + 1] == id;
    }
  }

  /** An ordinary post on a running executor with room is queued last; a refused one changes no queue. */
  lemma {:induction false} PostQueues(s: State, e: Event)
    requires e.Post? || e.PostContinuation?
    ensures var taken := !s.stopping && (e.PostContinuation? || |s.queue| < s.limit);
      Fire(s, e).queue == if taken then s.queue + [s.next] else s.queue
  {
    hide Insert, Ids, Pool;
  }

  // ------------------------------------------------------------------ delayed tasks

  /** Whatever waits under number `id` waits for time `due`. */
  predicate WaitsFor(s: State, id: nat, due: nat) {
    id < s.next && forall d <- s.delayed :: d.id == id ==> d.deadline == due
  }

  lemma {:induction false} StepWaits(s: State, e: Event, id: nat, due: nat)
    requires Enabled(s, e) && WaitsFor(s, id, due)
    ensures WaitsFor(Fire(s, e), id, due)
  {
    hide Insert, Ids, Pool;
    if e.PostAfter? { InsertMembers(s.delayed, Delay(s, e.delay)); }
    QueueStep(s, e);
  }

  /** A task posted with a delay waits from the call on; a negative delay is none. */
  function DueAt(s: State, delay: int): nat { if delay <= 0 then s.now else s.now + delay }

  lemma {:induction false} PostedWaits(s: State, delay: int)
    requires Inv(s) && !s.stopping
    ensures var t := Fire(s, PostAfter(delay));
      && WaitsFor(t, s.next, DueAt(s, delay))
      && exists d <- t.delayed :: d.id == s.next && d.deadline == DueAt(s, delay)
  {
    hide Ids, Pool, Insert, Books, Limited, Timers, Threads;
    var d := Delay(s, delay);
    InsertMembers(s.delayed, d);
    assert d in Insert(s.delayed, d);
    forall x | x in s.delayed ensures x.id != s.next { UnknownId(s, x); }
  }

  lemma {:induction false} UnknownId(s: State, x: Delayed)
    requires Inv(s) && x in s.delayed
    ensures x.id < s.next
  {
    hide Books, Limited, Timers, Threads, Count;
    assert Places(s, x.id) == if x.id < s.next then 1 else 0;
    CountedId(s.delayed, x);
  }

  lemma {:induction false} CountedId(q: seq<Delayed>, x: Delayed)
    requires x in q
    ensures Count(Ids(q), x.id) >= 1
  {
    hide Count;
    IdsFirst(q, x.id);
    if q[0] != x { CountedId(q[1..], x); }
  }

  lemma {:induction false} DueStays(states: seq<State>, events: seq<Event>, i: nat, j: nat, id: nat, due: nat)
    requires IsRun(states, events) && i <= j < |states| && WaitsFor(states[i], id, due)
    ensures WaitsFor(states[j], id, due)
    decreases j
  {
    hide Fire, Enabled, WaitsFor;
    if i < j {
      DueStays(states, events, i, j - 1, id, due);
      StepWaits(states[j - 1], events[j - 1], id, due);
    }
  }

  /** The timer begins a task posted with a delay only once that delay has passed since the post. */
  lemma {:induction false} NotBeforeItsTime(states: seq<State>, events: seq<Event>, i: nat, j: nat)
    requires IsRun(states, events) && i < j < |events| && events[i].PostAfter? && !states[i].stopping
    requires events[j].TimerTake? && states[j].delayed[0].id == states[i].next
    ensures states[i].now + events[i].delay <= states[j].now && states[i].now <= states[j].now
  {
    hide Inv;
    RunInv(states, events, i);
    PostedWaits(states[i], events[i].delay);
    DueStays(states, events, i + 1, j, states[i].next, DueAt(states[i], events[i].delay));
    assert states[j].delayed[0] in states[j].delayed;
  }

  /** Once it is due, and as long as it still waits, a timer that is not busy has a task to begin. */
  lemma {:induction false} DueIsBegun(states: seq<State>, events: seq<Event>, i: nat, j: nat, d: Delayed)
    requires IsRun(states, events) && i < j < |states| && events[i].PostAfter? && !states[i].stopping
    requires d in states[j].delayed && d.id == states[i].next && states[j].timer.TimerWaiting?
    requires states[j].now >= states[i].now && states[j].now >= states[i].now + events[i].delay
    ensures Enabled(states[j], TimerTake)
  {
    hide Once, Books, Limited, Threads;
    RunInv(states, events, i);
    RunInv(states, events, j);
    PostedWaits(states[i], events[i].delay);
    DueStays(states, events, i + 1, j, states[i].next, DueAt(states[i], events[i].delay));
    var k :| 0 <= k < |states[j].delayed| && states[j].delayed[k] == d;
    assert k > 0 ==> Before(states[j].delayed[0], states[j].delayed[k]);
  }
}

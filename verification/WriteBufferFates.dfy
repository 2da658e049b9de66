/** What becomes of a buffered write, told from the events: flushed, kept for another try, or dropped for a reason. */
module WriteBufferFates {
  import opened Counting
  import opened WriteBuffer

  /** Event `e` tries the write and it goes through. */
  predicate Goes(s: State, e: Event, id: nat) {
    e.TryFirst? && e.outcome.Flushed? && s.batch != [] && s.batch[0] == id
  }

  /** Event `e` gives the write up: it failed for good, it expired, it could be tried again but the buffer is stopping,
      or it does not fit when retries go back in front of newer writes. */
  predicate GivesUp(s: State, e: Event, id: nat) {
    || (e.TryFirst? && s.batch != [] && s.batch[0] == id
        && (e.outcome.Failed? || e.outcome.Expired? || (e.outcome.Retryable? && s.stop && Final(s.worker))))
    || (e.Merge? && id in s.retry + s.q && |s.retry + s.q| > s.cap
        && id !in (s.retry + s.q)[..if s.cap < 0 then 0 else s.cap])
  }

  lemma {:induction false} StepFlushed(s: State, e: Event, id: nat)
    requires Enabled(s, e)
    ensures id in Fire(s, e).flushed <==> id in s.flushed || Goes(s, e, id)
  {
    hide Kept, Excess;
  }

  lemma {:induction false} TryDrops(s: State, o: Outcome, id: nat)
    requires Control(s) && Enabled(s, TryFirst(o))
    ensures id in Fire(s, TryFirst(o)).dropped <==> id in s.dropped || GivesUp(s, TryFirst(o), id)
  {
  }

  lemma {:induction false} ExcessIs(all: seq<nat>, cap: int, id: nat)
    requires Increasing(all)
    ensures id in Excess(all, cap) <==> id in all && |all| > cap && id !in all[..if cap < 0 then 0 else Min(cap, |all|)]
  {
    var n := if cap < 0 then 0 else Min(cap, |all|);
    assert all == all[..n] + all[n..];
    if |all| > cap {
      assert Excess(all, cap) == all[n..];
      forall i, j | 0 <= i < n <= j < |all| ensures all[i] != all[j] { }
    }
  }

  function Min(a: int, b: int): int { if a < b then a else b }

  lemma {:induction false} MergeDrops(s: State, id: nat)
    requires InOrder(s) && Control(s) && Enabled(s, Merge)
    ensures id in Fire(s, Merge).dropped <==> id in s.dropped || GivesUp(s, Merge, id)
  {
    hide Kept, Excess, Numbered;
    var all := s.retry + s.q;
    assert Pending(s) == all;
    assert Increasing(all) by { Sorted(s); }
    ExcessIs(all, s.cap, id);
  }

  lemma {:induction false} Sorted(s: State)
    requires InOrder(s)
    ensures Increasing(Pending(s))
  {
  }

  lemma {:induction false} StepDropped(s: State, e: Event, id: nat)
    requires Inv(s) && Enabled(s, e)
    ensures id in Fire(s, e).dropped <==> id in s.dropped || GivesUp(s, e, id)
  {
    hide InOrder, Once, Bounded, Kept, Excess;
    match e
    case TryFirst(o) => TryDrops(s, o, id);
    case Merge => MergeDrops(s, id);
    case _ =>
  }

  /** A write counts as flushed exactly when some event flushed it, and as dropped exactly when some event had a reason
      to give it up. */
  lemma {:induction false} FatesHaveReasons(states: seq<State>, events: seq<Event>, i: nat, id: nat)
    requires IsRun(states, events) && i <= |events|
    ensures id in states[i].flushed <==> exists j :: 0 <= j < i && Goes(states[j], events[j], id)
    ensures id in states[i].dropped <==> exists j :: 0 <= j < i && GivesUp(states[j], events[j], id)
  {
    hide Fire, Enabled, Inv, Goes, GivesUp;
    if i > 0 {
      FatesHaveReasons(states, events, i - 1, id);
      RunInv(states, events, i - 1);
      StepFlushed(states[i - 1], events[i - 1], id);
      StepDropped(states[i - 1], events[i - 1], id);
    } else {
      NothingYet(states[0], id);
    }
  }

  lemma {:induction false} NothingYet(s: State, id: nat)
    requires Init(s)
    ensures id !in s.flushed && id !in s.dropped
  {
  }

  /** While nobody stops the buffer, a write that may be tried again is tried again: it waits behind the retries of the
      same pass and, at the merge, in front of everything newer. */
  lemma {:induction false} RetryableIsKept(s: State, e: Event)
    requires Inv(s) && Enabled(s, e) && e.TryFirst? && e.outcome.Retryable? && !s.stop
    ensures var t := Fire(s, e); t.retry == s.retry + [s.batch[0]] && t.dropped == s.dropped && t.flushed == s.flushed
  {
    hide InOrder, Once, Bounded;
  }

  /** The merge keeps the oldest writes, in order, and gives up only what does not fit behind them. */
  lemma {:induction false} MergeKeepsOldest(s: State)
    requires Enabled(s, Merge)
    ensures var t, all := Fire(s, Merge), s.retry + s.q; var n := Min(|all|, if s.cap < 0 then 0 else s.cap);
      t.q == all[..n] && t.retry == [] && t.dropped == s.dropped + all[n..]
  {
    var all := s.retry + s.q;
    assert all[..|all|] == all && all[|all|..] == [] && all[0..] == all;
  }

  /** A write is accepted exactly when the buffer is enabled, running, not stopping and has room, and then as the
      newest. */
  lemma {:induction false} AcceptedIff(s: State)
    requires Enabled(s, Enqueue)
    ensures var t := Fire(s, Enqueue);
      && (t.next == s.next + 1 <==> s.enabled && s.running && !s.stop && |s.q| < s.cap)
      && (t.next == s.next + 1 ==> t.q == s.q + [s.next]) && (t.next != s.next + 1 ==> t == s)
  {
  }

  // ------------------------------------------------------------- a stop comes to an end

  /** A step of the worker. */
  predicate ByWorker(e: Event) { e.Swap? || e.TryFirst? || e.BatchDone? || e.Merge? || e.SkipMerge? || e.Close? }

  /** Steps the worker can still take once the buffer is stopping, at most. */
  function Left(s: State): nat {
    match s.worker
    case Waiting => |s.q| + 4
    case Flushing(final) => if final then |s.batch| + 3 else 2 * |s.batch| + |s.retry| + |s.q| + 6
    case Merging(final) => if final then 2 else |s.retry| + |s.q| + 5
    case Closing => 1
    case _ => 0
  }

  /** The step that the worker takes next. */
  function Next(s: State): Event {
    match s.worker
    case Waiting => Swap
    case Flushing(_) => if s.batch != [] then TryFirst(Flushed) else BatchDone
    case Merging(_) => if s.retry != [] then Merge else SkipMerge
    case _ => Close
  }

  /** Once the buffer is stopping, its worker can always go on, every step of it brings its end closer, and nothing that
      others do puts it off. */
  lemma {:induction false} StopComesToAnEnd(s: State, e: Event)
    requires Inv(s) && Enabled(s, e) && s.stop && !Gone(s.worker)
    ensures Enabled(s, Next(s)) && ByWorker(Next(s))
    ensures Left(Fire(s, e)) <= Left(s) && (ByWorker(e) ==> Left(Fire(s, e)) < Left(s))
  {
    hide InOrder, Once, Bounded, Kept, Excess;
    if e.Merge? { KeptIsShorter(s.retry + s.q, s.cap); }
  }

  lemma {:induction false} KeptIsShorter(all: seq<nat>, cap: int)
    ensures |Kept(all, cap)| <= |all|
  {
  }
}

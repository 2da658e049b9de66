/**
  What an operation is, told from the events of the run alone: when it expires,
  what it may do, and who stopped it. Nothing here speaks of the deadline or the
  permission that the state stores.
*/
module OperationOrigins {
  import opened Wrappers
  import opened OperationTree

  /** Event `j` is the one that created operation `k`. */
  predicate Creates(states: seq<State>, events: seq<Event>, j: nat, k: nat) {
    j < |events| && j < |states| && events[j].Create? && |states[j].ops| == k
  }

  /** What the state keeps of the creation of operation `k`. */
  predicate Recorded(states: seq<State>, events: seq<Event>, j: nat, s: State, k: nat)
    requires Creates(states, events, j, k)
  {
    && k < |s.ops| && s.limit == states[j].limit && states[j].now <= s.now
    && s.ops[k].parent == events[j].parent && (s.ops[k].negative <==> events[j].timeout < 0)
    && s.ops[k].deadline == NewDeadline(states[j], events[j]) && s.ops[k].fallback == NewFallback(states[j], events[j])
  }

  function NewDeadline(s: State, e: Event): nat
    requires e.Create?
  {
    var own := OwnDeadline(s, e.timeout, e.deadline);
    if e.parent.Some? && e.parent.value < |s.ops| then Min(own, s.ops[e.parent.value].deadline) else own
  }

  predicate NewFallback(s: State, e: Event)
    requires e.Create?
  {
    e.fallback && (e.parent.Some? && e.parent.value < |s.ops| ==> s.ops[e.parent.value].fallback)
  }

  lemma {:induction false} StepRecords(s: State, e: Event, k: nat)
    requires Enabled(s, e) && k < |s.ops|
    ensures var t := Fire(s, e);
      && k < |t.ops| && t.limit == s.limit && s.now <= t.now && t.ops[k].parent == s.ops[k].parent
      && t.ops[k].negative == s.ops[k].negative && t.ops[k].deadline == s.ops[k].deadline
      && t.ops[k].fallback == s.ops[k].fallback
  {
  }

  /** Every operation of a state has been created by an event, of whose options it keeps what it needs. */
  lemma {:induction false} Origin(states: seq<State>, events: seq<Event>, i: nat, k: nat) returns (j: nat)
    requires IsRun(states, events) && i < |states| && k < |states[i].ops|
    ensures j < i && Creates(states, events, j, k) && Enabled(states[j], events[j])
    ensures Recorded(states, events, j, states[i], k)
    decreases i
  {
    hide Inv;
    var s, e := states[i - 1], events[i - 1];
    if k < |s.ops| {
      hide Fire, Enabled;
      j := Origin(states, events, i - 1, k);
      StepRecords(s, e, k);
    } else {
      hide OwnDeadline;
      j := i - 1;
    }
  }

  lemma {:induction false} OpsGrow(states: seq<State>, events: seq<Event>, i: nat, j: nat)
    requires IsRun(states, events) && i <= j < |states|
    ensures |states[i].ops| <= |states[j].ops|
    decreases j
  {
    hide Fire, Enabled;
    if i < j {
      OpsGrow(states, events, i, j - 1);
      StepGrows(states[j - 1], events[j - 1]);
    }
  }

  lemma {:induction false} StepGrows(s: State, e: Event)
    requires Enabled(s, e)
    ensures |Fire(s, e).ops| == |s.ops| + if e.Create? then 1 else 0
  {
  }

  /** One event creates one operation. */
  lemma {:induction false} OneOrigin(states: seq<State>, events: seq<Event>, k: nat, j: nat, j': nat)
    requires IsRun(states, events) && Creates(states, events, j, k) && Creates(states, events, j', k)
    ensures j == j'
  {
    hide Fire, Enabled;
    if j < j' {
      StepGrows(states[j], events[j]);
      OpsGrow(states, events, j + 1, j');
    } else if j' < j {
      StepGrows(states[j'], events[j']);
      OpsGrow(states, events, j' + 1, j);
    }
  }

  // ------------------------------------------------------------------ expiry

  /** The options of one creation, made at time `made`, have run out at time `now`. */
  predicate Past(e: Event, made: nat, limit: nat, now: nat)
    requires e.Create?
  {
    now >= e.deadline || (e.timeout > 0 && made + e.timeout < limit && now >= made + e.timeout)
  }

  /** At time `now` the options of operation `k`, or of an operation above it, have run out. */
  ghost predicate RunOut(states: seq<State>, events: seq<Event>, k: nat, now: nat)
    decreases k
  {
    exists j: nat {:trigger Creates(states, events, j, k)} :: Creates(states, events, j, k) &&
      (|| Past(events[j], states[j].now, states[j].limit, now)
       || (events[j].parent.Some? && events[j].parent.value < k && RunOut(states, events, events[j].parent.value, now)))
  }

  lemma {:induction false} DeadlineIs(states: seq<State>, events: seq<Event>, i: nat, k: nat, now: nat)
    requires IsRun(states, events) && i < |states| && k < |states[i].ops|
    ensures now >= states[i].ops[k].deadline <==> RunOut(states, events, k, now)
    decreases k
  {
    hide Fire, IsRun;
    var j := Origin(states, events, i, k);
    var e := events[j];
    if e.parent.Some? {
      DeadlineIs(states, events, j, e.parent.value, now);
    }
    forall j': nat | Creates(states, events, j', k) ensures j' == j { OneOrigin(states, events, k, j, j'); }
    assert RunOut(states, events, k, now) <==>
      (|| Past(e, states[j].now, states[j].limit, now)
       || (e.parent.Some? && e.parent.value < k && RunOut(states, events, e.parent.value, now)));
  }

  /** The permission to fall back is there exactly when every creation on the path up gave it. */
  ghost predicate Permitted(states: seq<State>, events: seq<Event>, k: nat)
    decreases k
  {
    forall j: nat {:trigger Creates(states, events, j, k)} :: Creates(states, events, j, k) ==>
      events[j].fallback && (events[j].parent.Some? && events[j].parent.value < k ==>
        Permitted(states, events, events[j].parent.value))
  }

  lemma {:induction false} FallbackIs(states: seq<State>, events: seq<Event>, i: nat, k: nat)
    requires IsRun(states, events) && i < |states| && k < |states[i].ops|
    ensures states[i].ops[k].fallback <==> Permitted(states, events, k)
    decreases k
  {
    hide Fire, IsRun;
    var j := Origin(states, events, i, k);
    var e := events[j];
    if e.parent.Some? { FallbackIs(states, events, j, e.parent.value); }
    forall j': nat | Creates(states, events, j', k) ensures j' == j { OneOrigin(states, events, k, j, j'); }
    assert Permitted(states, events, k) <==>
      (e.fallback && (e.parent.Some? && e.parent.value < k ==> Permitted(states, events, e.parent.value)));
  }

  // ------------------------------------------------------------------- stops

  ghost predicate CreatedNegative(states: seq<State>, events: seq<Event>, k: nat) {
    exists m: nat :: Creates(states, events, m, k) && events[m].timeout < 0
  }

  /** The code with which event `e` stops operation `k`; OK when it does not. A stop reaches a live child from its
      parent with the parent's status, and a negative timeout stops its operation when it is checked. */
  function StopsWith(s: State, e: Event, k: nat, negative: bool): Code
    requires k < |s.ops|
  {
    if e.Stop? && e.op == k then e.code
    else if e == Check(k) then (if negative then ConfigError else Ok)
    else if e == Join(k) && s.ops[k].parent.Some? && s.ops[k].parent.value < |s.ops| then
      Status(s, s.ops[k].parent.value)
    else if e.Notify? && e.item == Child(k) && e.op < |s.ops| && s.ops[k].live then Status(s, e.op)
    else Ok
  }

  ghost function StopCode(states: seq<State>, events: seq<Event>, j: nat, k: nat): Code
    requires j < |events| && j < |states| && k < |states[j].ops|
  {
    StopsWith(states[j], events[j], k, CreatedNegative(states, events, k))
  }

  lemma {:induction false} FireReason(s: State, e: Event, k: nat)
    requires Enabled(s, e) && k < |s.ops|
    ensures var t := Fire(s, e);
      && k < |t.ops|
      && (s.ops[k].reason == Ok ==> t.ops[k].reason == StopsWith(s, e, k, s.ops[k].negative))
      && (s.ops[k].reason != Ok ==> t.ops[k].reason == s.ops[k].reason)
  {
    hide Status;
  }

  lemma {:induction false} StepReason(states: seq<State>, events: seq<Event>, j: nat, k: nat)
    requires IsRun(states, events) && j < |events| && k < |states[j].ops|
    ensures k < |states[j + 1].ops|
    ensures states[j + 1].ops[k].reason ==
      if states[j].ops[k].reason == Ok then StopCode(states, events, j, k) else states[j].ops[k].reason
  {
    hide Fire, Enabled, StopsWith;
    var m := Origin(states, events, j, k);
    forall m': nat | Creates(states, events, m', k) ensures m' == m { OneOrigin(states, events, k, m, m'); }
    FireReason(states[j], events[j], k);
  }

  /** No event before `i` stopped operation `k`. */
  ghost predicate Unstopped(states: seq<State>, events: seq<Event>, i: nat, k: nat)
    requires IsRun(states, events) && i < |states|
  {
    forall j :: 0 <= j < i && k < |states[j].ops| ==> StopCode(states, events, j, k) == Ok
  }

  lemma {:induction false} ReasonIs(states: seq<State>, events: seq<Event>, i: nat, k: nat)
    requires IsRun(states, events) && i < |states| && k < |states[i].ops|
    ensures states[i].ops[k].reason == Ok <==> Unstopped(states, events, i, k)
    decreases i
  {
    hide Fire, Enabled, StopCode, Inv;
    if k < |states[i - 1].ops| {
      ReasonIs(states, events, i - 1, k);
      StepReason(states, events, i - 1, k);
    } else {
      Newborn(states[i - 1], events[i - 1], k);
      forall j | 0 <= j < i ensures |states[j].ops| <= k { OpsGrow(states, events, j, i - 1); }
    }
  }

  lemma {:induction false} Newborn(s: State, e: Event, k: nat)
    requires Enabled(s, e) && |s.ops| <= k < |Fire(s, e).ops|
    ensures Fire(s, e).ops[k].reason == Ok
  {
  }

  /** An operation that nothing has stopped is OK exactly as long as no bound of its own or of an operation above it has
      passed, and timed out from then on. */
  lemma {:induction false} StatusFollowsBounds(states: seq<State>, events: seq<Event>, i: nat, k: nat)
    requires IsRun(states, events) && i < |states| && k < |states[i].ops| && Unstopped(states, events, i, k)
    ensures Status(states[i], k) == if RunOut(states, events, k, states[i].now) then QueryTimeout else Ok
  {
    hide IsRun, RunOut, Unstopped;
    ReasonIs(states, events, i, k);
    DeadlineIs(states, events, i, k, states[i].now);
  }

  /** The first event that stops an operation gives it its code, for good. */
  lemma {:induction false} FirstStopCounts(states: seq<State>, events: seq<Event>, j: nat, i: nat, k: nat)
    requires IsRun(states, events) && j < i < |states| && k < |states[j].ops|
    requires Unstopped(states, events, j, k) && StopCode(states, events, j, k) != Ok
    ensures k < |states[i].ops| && Status(states[i], k) == StopCode(states, events, j, k)
  {
    hide Fire, Enabled, Unstopped, StopCode;
    ReasonIs(states, events, j, k);
    StepReason(states, events, j, k);
    StopIsForGood(states, events, j + 1, i, k);
  }

  /** Stopped or not, an operation is not OK once a bound of its own or of an operation above it has passed. */
  lemma {:induction false} TimeoutTakesEffect(states: seq<State>, events: seq<Event>, i: nat, k: nat)
    requires IsRun(states, events) && i < |states| && k < |states[i].ops| && RunOut(states, events, k, states[i].now)
    ensures Status(states[i], k) != Ok
  {
    hide IsRun, RunOut;
    DeadlineIs(states, events, i, k, states[i].now);
  }

  /** An operation created with a negative timeout is never handed out as OK. */
  lemma {:induction false} NegativeIsRefused(states: seq<State>, events: seq<Event>, i: nat, k: nat)
    requires IsRun(states, events) && i < |states| && CreatedNegative(states, events, k) && Usable(states[i], k)
    ensures Status(states[i], k) != Ok
  {
    hide IsRun, Status;
    var m := Origin(states, events, i, k);
    forall m': nat | Creates(states, events, m', k) ensures m' == m { OneOrigin(states, events, k, m, m'); }
    NegativeTimeoutIsStopped(states, events, i, k);
  }
}

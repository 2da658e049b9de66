/**
  Operations with deadlines, cancellation and children. A stop writes the
  reason once, then asks the operation's stop signal to run its subscribers:
  child operations and completion wrappers. Any number of threads interleave.
*/
module OperationTree {
  import opened Wrappers

  datatype Code = Ok | Cancelled | QueryTimeout | ConfigError | Failed

  datatype Item = Child(op: nat) | Wrapper(w: nat)

  /** Progress of the thread that won the write of the reason. */
  datatype Phase = Open | Won | Notifying(todo: set<Item>) | Notified

  /** Progress of `create`: run the late callback, look at the timeout, hand out. */
  datatype Stage = MustJoin | MustCheck | Ready

  datatype Op = Op(
    parent: Option<nat>, deadline: nat, fallback: bool, negative: bool, stage: Stage,
    reason: Code, phase: Phase, subscribers: set<Item>, live: bool)

  /** Progress of Pending::deliver; `joining` until its late subscription has been run. */
  datatype Delivery = Idle | Taken(own: Code) | Calling(status: Code) | Delivered(status: Code)

  datatype Wrap = Wrap(op: nat, joining: bool, live: bool, delivery: Delivery, calls: nat)

  /** `limit` is the largest time point: it stands for no deadline. */
  datatype State = State(now: nat, limit: nat, ops: seq<Op>, wraps: seq<Wrap>)

  datatype Event =
    | Tick(now: nat)
    | Create(parent: Option<nat>, timeout: int, deadline: nat, fallback: bool)
    | Join(op: nat) | Check(op: nat)
    | Stop(op: nat, code: Code) | RequestStop(op: nat) | Notify(op: nat, item: Item) | NotifyDone(op: nat)
    | Destroy(op: nat)
    | MakeWrapper(op: nat) | JoinWrapper(w: nat)
    | Complete(w: nat, code: Code) | ReadStatus(w: nat) | CallTarget(w: nat) | Drop(w: nat)

  function Min(a: nat, b: nat): nat { if a < b then a else b }

  /** The constructor's deadline: a positive timeout counts from now unless it would pass the end of time. */
  function OwnDeadline(s: State, timeout: int, deadline: nat): nat {
    if timeout > 0 && s.now + timeout < s.limit then Min(deadline, s.now + timeout) else deadline
  }

  predicate Requested(o: Op) { o.phase.Notifying? || o.phase.Notified? }

  function Status(s: State, op: nat): Code
    requires op < |s.ops|
  {
    if s.ops[op].reason == Ok && s.now >= s.ops[op].deadline then QueryTimeout else s.ops[op].reason
  }

  /** The compare-exchange at the head of OperationState::stop. */
  function TryStop(o: Op, code: Code): Op {
    var wins := code != Ok && o.reason == Ok;
    o.(reason := if wins then code else o.reason, phase := if wins then Won else o.phase)
  }

  /** The locked part of Pending::deliver. */
  function Take(w: Wrap, own: Code): Wrap {
    w.(delivery := if w.delivery.Idle? then Taken(own) else w.delivery)
  }

  predicate LiveOp(s: State, op: nat) { op < |s.ops| && s.ops[op].live }

  predicate Usable(s: State, op: nat) { LiveOp(s, op) && s.ops[op].stage.Ready? }

  predicate LiveWrap(s: State, w: nat) { w < |s.wraps| && s.wraps[w].live }

  predicate CanDestroy(s: State, op: nat) {
    && Usable(s, op) && (s.ops[op].phase.Open? || s.ops[op].phase.Notified?)
    && (forall c <- s.ops :: c.live ==> c.parent != Some(op))
    && (forall w <- s.wraps :: w.live || w.delivery.Taken? ==> w.op != op)
  }

  predicate Enabled(s: State, e: Event) {
    match e
    case Tick(now) => s.now <= now
    case Create(parent, _, _, _) => parent.Some? ==> Usable(s, parent.value)
    case Join(op) => LiveOp(s, op) && s.ops[op].stage.MustJoin? && s.ops[op].parent.Some?
      && s.ops[op].parent.value < |s.ops|
    case Check(op) => LiveOp(s, op) && s.ops[op].stage.MustCheck?
    case Stop(op, _) => LiveOp(s, op)
    case RequestStop(op) => LiveOp(s, op) && s.ops[op].phase.Won?
    case Notify(op, item) =>
      && LiveOp(s, op) && s.ops[op].phase.Notifying? && item in s.ops[op].phase.todo
      && (match item case Child(c) => c < |s.ops| case Wrapper(w) => w < |s.wraps|)
    case NotifyDone(op) => LiveOp(s, op) && s.ops[op].phase.Notifying? && s.ops[op].phase.todo == {}
    case Destroy(op) => CanDestroy(s, op)
    case MakeWrapper(op) => Usable(s, op)
    case JoinWrapper(w) => LiveWrap(s, w) && s.wraps[w].joining
    case Complete(w, _) => LiveWrap(s, w) && !s.wraps[w].joining
    case ReadStatus(w) => w < |s.wraps| && s.wraps[w].delivery.Taken? && s.wraps[w].op < |s.ops|
    case CallTarget(w) => w < |s.wraps| && s.wraps[w].delivery.Calling?
    case Drop(w) => LiveWrap(s, w) && !s.wraps[w].joining && s.wraps[w].op < |s.ops|
  }

  function WithSubscriber(ops: seq<Op>, op: nat, item: Item): seq<Op>
    requires op < |ops|
  {
    ops[op := ops[op].(subscribers := ops[op].subscribers + {item})]
  }

  function WithoutSubscriber(ops: seq<Op>, op: nat, item: Item): seq<Op>
    requires op < |ops|
  {
    ops[op := ops[op].(subscribers := ops[op].subscribers - {item})]
  }

  function NewOp(s: State, parent: Option<nat>, timeout: int, deadline: nat, fallback: bool): Op
    requires parent.Some? ==> parent.value < |s.ops|
  {
    var own := OwnDeadline(s, timeout, deadline);
    Op(parent, if parent.Some? then Min(own, s.ops[parent.value].deadline) else own,
       fallback && (parent.Some? ==> s.ops[parent.value].fallback), timeout < 0,
       if parent.Some? && Requested(s.ops[parent.value]) then MustJoin else MustCheck,
       Ok, Open, {}, true)
  }

  /** A live child stopped by its parent's signal takes the parent's code. */
  function NotifyOps(s: State, op: nat, item: Item): seq<Op>
    requires Enabled(s, Notify(op, item))
  {
    var ops := s.ops[op := s.ops[op].(phase := Notifying(s.ops[op].phase.todo - {item}))];
    if item.Child? && ops[item.op].live then ops[item.op := TryStop(ops[item.op], Status(s, op))] else ops
  }

  function Fire(s: State, e: Event): State
    requires Enabled(s, e)
  {
    match e
    case Tick(now) => s.(now := now)
    case Create(parent, timeout, deadline, fallback) =>
      s.(ops := (if parent.Some? && !Requested(s.ops[parent.value])
                 then WithSubscriber(s.ops, parent.value, Child(|s.ops|)) else s.ops)
                + [NewOp(s, parent, timeout, deadline, fallback)])
    case Join(op) => s.(ops := s.ops[op := TryStop(s.ops[op], Status(s, s.ops[op].parent.value)).(stage := MustCheck)])
    case Check(op) =>
      var code := if s.ops[op].negative then ConfigError else Ok;
      s.(ops := s.ops[op := TryStop(s.ops[op], code).(stage := Ready)])
    case Stop(op, code) => s.(ops := s.ops[op := TryStop(s.ops[op], code)])
    case RequestStop(op) => s.(ops := s.ops[op := s.ops[op].(phase := Notifying(s.ops[op].subscribers))])
    case Notify(op, item) =>
      s.(ops := NotifyOps(s, op, item),
         wraps := if item.Wrapper? && s.wraps[item.w].live
                  then s.wraps[item.w := Take(s.wraps[item.w], Ok)] else s.wraps)
    case NotifyDone(op) => s.(ops := s.ops[op := s.ops[op].(phase := Notified)])
    case Destroy(op) =>
      var ops := s.ops[op := s.ops[op].(live := false)];
      s.(ops := if s.ops[op].parent.Some? && s.ops[op].parent.value < |ops|
                then WithoutSubscriber(ops, s.ops[op].parent.value, Child(op)) else ops)
    case MakeWrapper(op) =>
      s.(ops := if Requested(s.ops[op]) then s.ops else WithSubscriber(s.ops, op, Wrapper(|s.wraps|)),
         wraps := s.wraps + [Wrap(op, Requested(s.ops[op]), true, Idle, 0)])
    case JoinWrapper(w) => s.(wraps := s.wraps[w := Take(s.wraps[w], Ok).(joining := false)])
    case Complete(w, code) => s.(wraps := s.wraps[w := Take(s.wraps[w], code)])
    case ReadStatus(w) =>
      var stop := Status(s, s.wraps[w].op);
      s.(wraps := s.wraps[w := s.wraps[w].(delivery := Calling(if stop != Ok then stop else s.wraps[w].delivery.own))])
    case CallTarget(w) =>
      var x := s.wraps[w];
      s.(wraps := s.wraps[w := x.(delivery := Delivered(x.delivery.status), calls := x.calls + 1)])
    case Drop(w) =>
      s.(wraps := s.wraps[w := s.wraps[w].(live := false)],
         ops := WithoutSubscriber(s.ops, s.wraps[w].op, Wrapper(w)))
  }

  // ---------------------------------------------------------------- invariant

  /** One operation on its own. */
  predicate OpOk(o: Op) {
    && (o.reason == Ok <==> o.phase.Open?)
    && (o.negative && o.stage.Ready? ==> o.reason != Ok)
  }

  /** Operation `c` against its parent: deadlines and permissions narrow, and no stop is lost. */
  predicate UnderParent(s: State, c: nat)
    requires c < |s.ops|
  {
    var o := s.ops[c];
    o.parent.Some? ==>
      && o.parent.value < c
      && var p := s.ops[o.parent.value];
      && o.deadline <= p.deadline && (o.fallback ==> p.fallback)
      && (o.live ==> p.live)
      && (o.stage.MustJoin? ==> Requested(p))
      && (o.live && !Requested(p) ==> Child(c) in p.subscribers)
      && (o.live && Requested(p) ==>
            o.reason != Ok || o.stage.MustJoin? || (p.phase.Notifying? && Child(c) in p.phase.todo))
  }

  /** Wrapper `w` against its operation. */
  predicate UnderOp(s: State, w: nat)
    requires w < |s.wraps|
  {
    var x := s.wraps[w];
    && x.op < |s.ops| && (x.live || x.delivery.Taken? ==> s.ops[x.op].live)
    && x.calls == (if x.delivery.Delivered? then 1 else 0)
    && (x.joining ==> x.live && Requested(s.ops[x.op]))
    && (x.live && !Requested(s.ops[x.op]) ==> Wrapper(w) in s.ops[x.op].subscribers)
    && (x.live && Requested(s.ops[x.op]) ==>
          || !x.delivery.Idle? || x.joining
          || (s.ops[x.op].phase.Notifying? && Wrapper(w) in s.ops[x.op].phase.todo))
  }

  predicate Subscribed(o: Op, item: Item) {
    item in o.subscribers || (o.phase.Notifying? && item in o.phase.todo)
  }

  /** Only its own wrappers are subscribed to operation `k`. */
  ghost predicate OwnWrappers(s: State, k: nat)
    requires k < |s.ops|
  {
    forall w: nat :: Subscribed(s.ops[k], Wrapper(w)) ==> w < |s.wraps| && s.wraps[w].op == k
  }

  ghost predicate Inv(s: State) {
    && (forall k :: 0 <= k < |s.ops| ==> OpOk(s.ops[k]))
    && (forall c :: 0 <= c < |s.ops| ==> UnderParent(s, c))
    && (forall w :: 0 <= w < |s.wraps| ==> UnderOp(s, w))
    && (forall k :: 0 <= k < |s.ops| ==> OwnWrappers(s, k))
  }

  lemma {:induction false} StepWrappers(s: State, e: Event, k: nat)
    requires Inv(s) && Enabled(s, e) && k < |Fire(s, e).ops|
    ensures OwnWrappers(Fire(s, e), k)
  {
    hide UnderParent, UnderOp, OpOk;
    if k < |s.ops| { assert OwnWrappers(s, k); }
  }

  lemma {:induction false} StepOp(s: State, e: Event, k: nat)
    requires Inv(s) && Enabled(s, e) && k < |Fire(s, e).ops|
    ensures OpOk(Fire(s, e).ops[k])
  {
    hide UnderParent, UnderOp, OwnWrappers;
    if k < |s.ops| { assert OpOk(s.ops[k]); }
    if e.Notify? { assert OpOk(s.ops[e.op]); }
  }

  /** Steps that add or remove subscriptions. */
  predicate Regroups(e: Event) { e.Create? || e.Destroy? || e.MakeWrapper? || e.Drop? }

  lemma {:induction false} RegroupUnderParent(s: State, e: Event, c: nat)
    requires Inv(s) && Enabled(s, e) && c < |Fire(s, e).ops| && Regroups(e)
    ensures UnderParent(Fire(s, e), c)
  {
    hide UnderOp, OwnWrappers;
    if c < |s.ops| {
      assert UnderParent(s, c) && OpOk(s.ops[c]);
      if s.ops[c].parent.Some? { assert OpOk(s.ops[s.ops[c].parent.value]); }
    }
  }

  lemma {:induction false} NotifyUnderParent(s: State, e: Event, c: nat)
    requires Inv(s) && Enabled(s, e) && c < |Fire(s, e).ops| && e.Notify?
    ensures UnderParent(Fire(s, e), c)
  {
    hide UnderOp, OwnWrappers;
    if c < |s.ops| {
      assert UnderParent(s, c) && OpOk(s.ops[c]);
      if s.ops[c].parent.Some? { assert OpOk(s.ops[s.ops[c].parent.value]); }
    }
  }

  lemma {:induction false} StopUnderParent(s: State, e: Event, c: nat)
    requires Inv(s) && Enabled(s, e) && c < |Fire(s, e).ops| && !Regroups(e) && !e.Notify?
    ensures UnderParent(Fire(s, e), c)
  {
    hide UnderOp, OwnWrappers;
    if c < |s.ops| {
      assert UnderParent(s, c) && OpOk(s.ops[c]);
      if s.ops[c].parent.Some? { assert OpOk(s.ops[s.ops[c].parent.value]); }
    }
  }

  lemma {:induction false} StepUnderOp(s: State, e: Event, w: nat)
    requires Inv(s) && Enabled(s, e) && w < |Fire(s, e).wraps|
    ensures UnderOp(Fire(s, e), w)
  {
    hide UnderParent, OwnWrappers;
    if w < |s.wraps| { assert UnderOp(s, w) && OpOk(s.ops[s.wraps[w].op]); }
  }

  /** Every atomic step keeps the invariant. */
  lemma {:induction false} StepInv(s: State, e: Event)
    requires Inv(s) && Enabled(s, e)
    ensures Inv(Fire(s, e))
  {
    hide OpOk, UnderParent, UnderOp, OwnWrappers, Fire, Enabled;
    var t := Fire(s, e);
    forall k | 0 <= k < |t.ops| ensures OpOk(t.ops[k]) { StepOp(s, e, k); }
    forall k | 0 <= k < |t.ops| ensures OwnWrappers(t, k) { StepWrappers(s, e, k); }
    forall c | 0 <= c < |t.ops| ensures UnderParent(t, c) {
      if Regroups(e) { RegroupUnderParent(s, e, c); }
      else if e.Notify? { NotifyUnderParent(s, e, c); }
      else { StopUnderParent(s, e, c); }
    }
    forall w | 0 <= w < |t.wraps| ensures UnderOp(t, w) { StepUnderOp(s, e, w); }
  }

  // --------------------------------------------------------------------- runs

  ghost predicate IsRun(states: seq<State>, events: seq<Event>) {
    && |states| == |events| + 1 && states[0].ops == [] && states[0].wraps == []
    && forall i :: 0 <= i < |events| ==> Enabled(states[i], events[i]) && states[i + 1] == Fire(states[i], events[i])
  }

  lemma {:induction false} RunInv(states: seq<State>, events: seq<Event>, i: nat)
    requires IsRun(states, events) && i < |states|
    ensures Inv(states[i])
  {
    hide OpOk, UnderParent, UnderOp, Fire, Enabled;
    if i > 0 {
      RunInv(states, events, i - 1);
      StepInv(states[i - 1], events[i - 1]);
    }
  }

  /** `a` is `d` or one of its ancestors. */
  predicate Ancestor(s: State, a: nat, d: nat)
    decreases d
  {
    a == d || (
      && d < |s.ops| && s.ops[d].parent.Some? && s.ops[d].parent.value < d
      && Ancestor(s, a, s.ops[d].parent.value))
  }

  /** Deadlines and the fallback permission only narrow on the way down the tree. */
  lemma {:induction false} NarrowsDownwards(states: seq<State>, events: seq<Event>, i: nat, a: nat, d: nat)
    requires IsRun(states, events) && i < |states| && a < |states[i].ops| && d < |states[i].ops|
      && Ancestor(states[i], a, d)
    ensures states[i].ops[d].deadline <= states[i].ops[a].deadline
    ensures states[i].ops[d].fallback ==> states[i].ops[a].fallback
    decreases d
  {
    hide OpOk, UnderOp, Fire, Enabled;
    RunInv(states, events, i);
    if a != d {
      assert UnderParent(states[i], d);
      NarrowsDownwards(states, events, i, a, states[i].ops[d].parent.value);
    }
  }

  /** Passing an ancestor's deadline shows in every descendant at once. */
  lemma {:induction false} DeadlineReachesDescendants(states: seq<State>, events: seq<Event>, i: nat, a: nat, d: nat)
    requires IsRun(states, events) && i < |states| && a < |states[i].ops| && d < |states[i].ops|
      && Ancestor(states[i], a, d)
    requires states[i].now >= states[i].ops[a].deadline
    ensures Status(states[i], d) != Ok
  {
    hide Fire, Enabled, IsRun;
    NarrowsDownwards(states, events, i, a, d);
  }

  /** One step, seen from one operation: nothing it was created with changes, and a reason is written once. */
  lemma {:induction false} StepKeepsOp(s: State, e: Event, k: nat)
    requires Enabled(s, e) && k < |s.ops|
    ensures var t := Fire(s, e);
      && k < |t.ops| && s.now <= t.now && t.ops[k].deadline == s.ops[k].deadline && t.ops[k].parent == s.ops[k].parent
      && (s.ops[k].reason != Ok ==> t.ops[k].reason == s.ops[k].reason)
  {
  }

  /** A reason is never overwritten, and an operation that is not OK stays so for good. */
  lemma {:induction false} StopIsForGood(states: seq<State>, events: seq<Event>, i: nat, j: nat, k: nat)
    requires IsRun(states, events) && i <= j < |states| && k < |states[i].ops|
    ensures k < |states[j].ops| && states[i].now <= states[j].now
      && states[i].ops[k].deadline == states[j].ops[k].deadline
    ensures states[i].ops[k].reason != Ok ==> states[j].ops[k].reason == states[i].ops[k].reason
    ensures Status(states[i], k) != Ok ==> Status(states[j], k) != Ok
    decreases j
  {
    hide Fire, Enabled;
    if i < j {
      StopIsForGood(states, events, i, j - 1, k);
      StepKeepsOp(states[j - 1], events[j - 1], k);
    }
  }

  /** No stop is under way between `d` and its ancestor `a`: on that path nobody still has to join a stopped parent, and
      no parent has been stopped without having told its children. What happens elsewhere in the tree does not
      matter. */
  predicate PathQuiet(s: State, a: nat, d: nat)
    decreases d
  {
    a == d || (
      && d < |s.ops| && s.ops[d].parent.Some? && s.ops[d].parent.value < d
      && !s.ops[d].stage.MustJoin?
      && !s.ops[s.ops[d].parent.value].phase.Won? && !s.ops[s.ops[d].parent.value].phase.Notifying?
      && PathQuiet(s, a, s.ops[d].parent.value))
  }

  lemma {:induction false} StopReachesLive(s: State, a: nat, d: nat)
    requires Inv(s) && a < |s.ops| && LiveOp(s, d) && PathQuiet(s, a, d) && s.ops[a].reason != Ok
    ensures s.ops[d].reason != Ok
    decreases d
  {
    hide UnderOp, OwnWrappers;
    if a != d {
      var p := s.ops[d].parent.value;
      assert UnderParent(s, d);
      StopReachesLive(s, a, p);
      assert OpOk(s.ops[p]);
    }
  }

  /** A stopped ancestor leaves a live descendant stopped as soon as no stop is under way between the two, and for ever
      after, whatever other operations are doing. */
  lemma {:induction false} StopReachesDescendants(
    states: seq<State>, events: seq<Event>, i: nat, j: nat, a: nat, d: nat)
    requires IsRun(states, events) && i <= j < |states|
    requires a < |states[i].ops| && LiveOp(states[i], d) && PathQuiet(states[i], a, d)
    requires states[i].ops[a].reason != Ok
    ensures d < |states[j].ops| && states[j].ops[d].reason != Ok && Status(states[j], d) != Ok
  {
    hide Fire, Enabled, Inv, PathQuiet;
    RunInv(states, events, i);
    StopReachesLive(states[i], a, d);
    StopIsForGood(states, events, i, j, d);
  }

  /** An operation created with a negative timeout is never handed out as OK. */
  lemma {:induction false} NegativeTimeoutIsStopped(states: seq<State>, events: seq<Event>, i: nat, k: nat)
    requires IsRun(states, events) && i < |states| && Usable(states[i], k) && states[i].ops[k].negative
    ensures Status(states[i], k) != Ok
  {
    hide Fire, Enabled;
    RunInv(states, events, i);
    assert OpOk(states[i].ops[k]);
  }

  // ----------------------------------------------------- controlledCompletion

  /** A wrapped completion is called at most once. */
  lemma {:induction false} CompletionAtMostOnce(states: seq<State>, events: seq<Event>, i: nat, w: nat)
    requires IsRun(states, events) && i < |states| && w < |states[i].wraps|
    ensures states[i].wraps[w].calls <= 1 && (states[i].wraps[w].calls == 1 <==> states[i].wraps[w].delivery.Delivered?)
  {
    hide Fire, Enabled;
    RunInv(states, events, i);
    assert UnderOp(states[i], w);
  }

  predicate Unread(x: Wrap) { x.delivery.Idle? || x.delivery.Taken? }

  lemma {:induction false} StepKeepsWrap(s: State, e: Event, w: nat)
    requires Inv(s) && Enabled(s, e) && w < |s.wraps|
    ensures w < |Fire(s, e).wraps| && Fire(s, e).wraps[w].op == s.wraps[w].op
    ensures Advances(s, e, s.wraps[w].delivery, Fire(s, e).wraps[w].delivery, w)
  {
    hide OpOk, UnderParent;
    assert UnderOp(s, w);
    if e.Notify? && e.item == Wrapper(w) {
      assert OwnWrappers(s, e.op);
      assert Subscribed(s.ops[e.op], Wrapper(w));
    }
  }

  /** What one step may do to a delivery, and who does it: somebody takes it with a code of its own, the status is read
      once, the target is called once. */
  ghost predicate Advances(s: State, e: Event, x: Delivery, y: Delivery, w: nat)
    requires w < |s.wraps|
  {
    var op := s.wraps[w].op;
    match x
    case Idle =>
      || y == Idle
      || (e.Complete? && e.w == w && y == Taken(e.code))
      || (y == Taken(Ok) && op < |s.ops| && Requested(s.ops[op]))
    case Taken(own) =>
      || y == x
      || (e == ReadStatus(w) && op < |s.ops| && y == Calling(if Status(s, op) != Ok then Status(s, op) else own))
    case Calling(status) => y == x || (e == CallTarget(w) && y == Delivered(status))
    case Delivered(_) => y == x
  }

  lemma {:induction false} RunKeepsWrap(states: seq<State>, events: seq<Event>, i: nat, w: nat)
    requires IsRun(states, events) && i < |events| && w < |states[i].wraps|
    ensures w < |states[i + 1].wraps| && states[i + 1].wraps[w].op == states[i].wraps[w].op
    ensures states[i].wraps[w].op < |states[i].ops|
    ensures Advances(states[i], events[i], states[i].wraps[w].delivery, states[i + 1].wraps[w].delivery, w)
  {
    hide Fire, Enabled, Advances, UnderParent, OpOk, OwnWrappers;
    RunInv(states, events, i);
    StepKeepsWrap(states[i], events[i], w);
    assert UnderOp(states[i], w);
  }

  lemma {:induction false} DeliveredStays(states: seq<State>, events: seq<Event>, i: nat, j: nat, w: nat)
    requires IsRun(states, events) && i <= j < |states| && w < |states[i].wraps|
      && states[i].wraps[w].delivery.Delivered?
    ensures w < |states[j].wraps| && states[j].wraps[w].delivery == states[i].wraps[w].delivery
    decreases j
  {
    hide Fire, Enabled;
    if i < j {
      DeliveredStays(states, events, i, j - 1, w);
      RunKeepsWrap(states, events, j - 1, w);
    }
  }

  /** Once the stop of its own operation has gone through, and this wrapper's own delivery is not under way, the wrapper
      has been called exactly once, for good: also if it is dropped later. */
  lemma {:induction false} StopCompletesWrapper(states: seq<State>, events: seq<Event>, i: nat, j: nat, w: nat)
    requires IsRun(states, events) && i <= j < |states| && LiveWrap(states[i], w)
    requires var x := states[i].wraps[w];
      && x.op < |states[i].ops| && states[i].ops[x.op].phase.Notified?
      && !x.joining && !x.delivery.Taken? && !x.delivery.Calling?
    ensures w < |states[j].wraps| && states[j].wraps[w].calls == 1
  {
    hide Fire, Enabled, UnderParent, OwnWrappers;
    RunInv(states, events, i);
    assert UnderOp(states[i], w);
    DeliveredStays(states, events, i, j, w);
    CompletionAtMostOnce(states, events, j, w);
  }

  predicate HasStatus(d: Delivery) { d.Calling? || d.Delivered? }

  /** A result delivered after the operation stopped carries the stop, whatever the query returned. */
  lemma {:induction false} StoppedMeansStopStatus(states: seq<State>, events: seq<Event>, i: nat, j: nat, w: nat)
    requires IsRun(states, events) && i <= j < |states| && w < |states[i].wraps| && Unread(states[i].wraps[w])
    requires states[i].wraps[w].op < |states[i].ops| && Status(states[i], states[i].wraps[w].op) != Ok
    ensures w < |states[j].wraps| && states[j].wraps[w].op == states[i].wraps[w].op
    ensures !Unread(states[j].wraps[w]) ==> states[j].wraps[w].delivery.status != Ok
    // with the recorded reason, when one was recorded by then
    ensures !Unread(states[j].wraps[w]) && states[i].ops[states[i].wraps[w].op].reason != Ok ==>
              states[j].wraps[w].delivery.status == states[i].ops[states[i].wraps[w].op].reason
    decreases j
  {
    hide Fire, Enabled, Inv;
    if i < j {
      StoppedMeansStopStatus(states, events, i, j - 1, w);
      StopIsForGood(states, events, i, j - 1, states[i].wraps[w].op);
      RunKeepsWrap(states, events, j - 1, w);
    }
  }

  /** The one read of the status between taking and delivering: it finds either OK, and the taker's code goes out, or a
      stop, and the stop goes out. */
  lemma {:induction false} StatusIsRead(states: seq<State>, events: seq<Event>, i: nat, j: nat, w: nat) returns (k: nat)
    requires IsRun(states, events) && i < j < |states| && w < |states[i].wraps| && states[i].wraps[w].delivery.Taken?
    requires w < |states[j].wraps| && HasStatus(states[j].wraps[w].delivery)
    ensures i <= k < j && events[k] == ReadStatus(w)
    ensures w < |states[k].wraps| && states[k].wraps[w].op == states[i].wraps[w].op < |states[k].ops|
    ensures var read, own := Status(states[k], states[i].wraps[w].op), states[i].wraps[w].delivery.own;
      states[j].wraps[w].delivery.status == (if read == Ok then own else read)
    decreases j - i
  {
    hide Fire, Enabled;
    RunKeepsWrap(states, events, i, w);
    if states[i + 1].wraps[w].delivery.Taken? {
      k := StatusIsRead(states, events, i + 1, j, w);
    } else {
      k := i;
      StatusStays(states, events, i + 1, j, w);
    }
  }

  lemma {:induction false} StatusStays(states: seq<State>, events: seq<Event>, i: nat, j: nat, w: nat)
    requires IsRun(states, events) && i <= j < |states| && w < |states[i].wraps|
      && HasStatus(states[i].wraps[w].delivery)
    ensures w < |states[j].wraps| && HasStatus(states[j].wraps[w].delivery)
    ensures states[j].wraps[w].delivery.status == states[i].wraps[w].delivery.status
    decreases j
  {
    hide Fire, Enabled;
    if i < j {
      StatusStays(states, events, i, j - 1, w);
      RunKeepsWrap(states, events, j - 1, w);
    }
  }

  /** End to end: if the delivery was taken at step `i` and the operation is still OK when it has been delivered, then a
      call of the wrapper took it, and exactly the code of that call arrived: no stop signal, no other call. */
  lemma {:induction false} OwnResultArrives(states: seq<State>, events: seq<Event>, i: nat, j: nat, w: nat)
    requires IsRun(states, events) && i < j < |states| && w < |states[i].wraps| && states[i].wraps[w].delivery.Idle?
    requires w < |states[i + 1].wraps| && !states[i + 1].wraps[w].delivery.Idle?
    requires w < |states[j].wraps| && states[j].wraps[w].delivery.Delivered?
    requires states[i].wraps[w].op < |states[j].ops| && Status(states[j], states[i].wraps[w].op) == Ok
    ensures events[i].Complete? && events[i].w == w
    ensures states[j].wraps[w].delivery.status == events[i].code
  {
    hide Fire, Enabled, Inv;
    var op := states[i].wraps[w].op;
    RunKeepsWrap(states, events, i, w);
    if Requested(states[i].ops[op]) {
      RequestedIsStopped(states, events, i, op);
      StopIsForGood(states, events, i, j, op);
      assert false;
    }
    var k := StatusIsRead(states, events, i + 1, j, w);
    StopIsForGood(states, events, k, j, op);
  }

  lemma {:induction false} RequestedIsStopped(states: seq<State>, events: seq<Event>, i: nat, k: nat)
    requires IsRun(states, events) && i < |states| && k < |states[i].ops|
    ensures Requested(states[i].ops[k]) ==> states[i].ops[k].reason != Ok
  {
    hide Fire, Enabled, UnderParent, UnderOp, OwnWrappers;
    RunInv(states, events, i);
    assert OpOk(states[i].ops[k]);
  }
}

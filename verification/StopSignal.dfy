/**
  The stop signal: subscribe, request and lease release on one signal, and the
  cancel bindings built on it. Each event is one region held under a lock, or
  the end of a callback or cancel() that runs while its lock is held.
*/
module StopSignal {
  /** `Calling` until subscribe returns a late subscriber's lease; `Cleared` once its destructor has emptied the slot;
      `Ended` once the binding around it is inactive too. */
  datatype Phase = Calling | Held | Erased | Cleared | Ended

  /** Who holds the slot's lock inside the callback. */
  datatype Runner = Nobody | Subscriber | Requester

  datatype Sub = Sub(
    phase: Phase, callback: bool, runner: Runner, runs: nat,
    active: bool, posted: bool, cancelling: bool, cancels: nat)

  /** `slots` holds the ids in the signal's map, in key order; `todo` what the request has still to run. */
  datatype State = State(requested: bool, slots: seq<nat>, todo: seq<nat>, subs: seq<Sub>)

  datatype Event =
    | Subscribe
    | SelfRun(id: nat, accepted: bool) | SelfReturn(id: nat)
    | Request
    | Reach(accepted: bool) | ReachReturn
    | Erase(id: nat) | Clear(id: nat, fromCallback: bool) | Deactivate(id: nat)
    | CancelTask(id: nat) | CancelReturn(id: nat)

  function Remove(ids: seq<nat>, id: nat): (r: seq<nat>)
    ensures forall k :: k in r <==> k in ids && k != id
  {
    if ids == [] then [] else
    var rest := Remove(ids[1..], id);
    if ids[0] == id then rest else [ids[0]] + rest
  }

  function Start(): State { State(false, [], [], []) }

  predicate Enabled(s: State, e: Event) {
    match e
    case Subscribe => true
    case SelfRun(id, _) => id < |s.subs| && s.subs[id].phase.Calling? && s.subs[id].runner.Nobody?
      && s.subs[id].runs == 0
    case SelfReturn(id) => id < |s.subs| && s.subs[id].runner.Subscriber?
    case Request => true
    case Reach(_) => s.todo != [] && s.todo[0] < |s.subs| && s.subs[s.todo[0]].runner.Nobody?
    case ReachReturn => s.todo != [] && s.todo[0] < |s.subs| && s.subs[s.todo[0]].runner.Requester?
    case Erase(id) => id < |s.subs| && s.subs[id].phase.Held?
    // the slot's lock is recursive: a callback may drop its own lease
    case Clear(id, fromCallback) =>
      id < |s.subs| && s.subs[id].phase.Erased? && (fromCallback <==> !s.subs[id].runner.Nobody?)
    case Deactivate(id) => id < |s.subs| && s.subs[id].phase.Cleared? && !s.subs[id].cancelling
    case CancelTask(id) => id < |s.subs| && s.subs[id].posted && !s.subs[id].cancelling
    case CancelReturn(id) => id < |s.subs| && s.subs[id].cancelling
  }

  /** Slot::run when the callback is set: the callback of a binding posts a cancel task, if the executor takes it. */
  function Begin(b: Sub, runner: Runner, accepted: bool): Sub {
    b.(runner := runner, runs := b.runs + 1, posted := b.posted || accepted)
  }

  function Fire(s: State, e: Event): State
    requires Enabled(s, e)
  {
    match e
    case Subscribe =>
      s.(slots := if s.requested then s.slots else s.slots + [|s.subs|],
         subs := s.subs + [Sub(if s.requested then Calling else Held, true, Nobody, 0, true, false, false, 0)])
    case SelfRun(id, accepted) => s.(subs := s.subs[id := Begin(s.subs[id], Subscriber, accepted)])
    case SelfReturn(id) => s.(subs := s.subs[id := s.subs[id].(runner := Nobody, phase := Held)])
    case Request => s.(requested := true, todo := if s.requested then s.todo else s.slots)
    case Reach(accepted) =>
      s.(todo := if s.subs[s.todo[0]].callback then s.todo else s.todo[1..],
         subs := if s.subs[s.todo[0]].callback
                 then s.subs[s.todo[0] := Begin(s.subs[s.todo[0]], Requester, accepted)] else s.subs)
    case ReachReturn => s.(todo := s.todo[1..], subs := s.subs[s.todo[0] := s.subs[s.todo[0]].(runner := Nobody)])
    case Erase(id) => s.(slots := Remove(s.slots, id), subs := s.subs[id := s.subs[id].(phase := Erased)])
    case Clear(id, _) => s.(subs := s.subs[id := s.subs[id].(phase := Cleared, callback := false)])
    case Deactivate(id) => s.(subs := s.subs[id := s.subs[id].(phase := Ended, active := false)])
    case CancelTask(id) =>
      s.(subs := s.subs[id := s.subs[id].(posted := false, cancelling := s.subs[id].active,
                                          cancels := s.subs[id].cancels + if s.subs[id].active then 1 else 0)])
    case CancelReturn(id) => s.(subs := s.subs[id := s.subs[id].(cancelling := false)])
  }

  // ---------------------------------------------------------------- invariant

  predicate Increasing(ids: seq<nat>) { forall i, j :: 0 <= i < j < |ids| ==> ids[i] < ids[j] }

  predicate Lists(s: State) {
    && Increasing(s.slots) && Increasing(s.todo)
    && (forall k <- s.slots :: k < |s.subs|) && (forall k <- s.todo :: k < |s.subs|)
    && (!s.requested ==> s.todo == [])
  }

  /** One subscription on its own. */
  predicate Local(b: Sub) {
    && b.runs <= 1
    && (b.callback <==> !b.phase.Cleared? && !b.phase.Ended?)
    && (b.active <==> !b.phase.Ended?)
    && (!b.runner.Nobody? ==> b.runs == 1)
    && (b.runner.Subscriber? ==> b.phase.Calling?)
    && (b.phase.Calling? ==> b.runs == 0 || b.runner.Subscriber?)
    && (b.cancelling ==> b.active && !b.posted && b.cancels == 1)
    && b.cancels + (if b.posted then 1 else 0) <= b.runs
  }

  /** How subscription `k` stands to the signal. */
  predicate Placed(s: State, k: nat)
    requires k < |s.subs|
  {
    var b := s.subs[k];
    && (b.runner.Requester? ==> s.todo != [] && s.todo[0] == k)
    && (k in s.todo ==> !b.phase.Calling? && (b.runs == 0 || b.runner.Requester?))
    && (k in s.slots ==> b.phase.Held?)
    && (!s.requested ==> b.runs == 0 && !b.phase.Calling? && (b.phase.Held? ==> k in s.slots))
    && (b.phase.Calling? ==> k !in s.slots)
    // no lost cancellation: a lease still held is waiting for the request or has run
    && (s.requested && b.phase.Held? && b.runs == 0 ==> k in s.todo)
  }

  predicate Inv(s: State) {
    Lists(s) && (forall b <- s.subs :: Local(b)) && forall k :: 0 <= k < |s.subs| ==> Placed(s, k)
  }

  lemma {:induction false} RemoveIncreasing(ids: seq<nat>, id: nat)
    requires Increasing(ids)
    ensures Increasing(Remove(ids, id))
  {
    if ids != [] {
      RemoveIncreasing(ids[1..], id);
      var rest := Remove(ids[1..], id);
      forall j | 0 <= j < |rest| ensures ids[0] < rest[j] { assert rest[j] in ids[1..]; }
    }
  }

  lemma {:induction false} StepLists(s: State, e: Event)
    requires Inv(s) && Enabled(s, e)
    ensures Lists(Fire(s, e))
  {
    hide Local, Placed;
    if e.Erase? { RemoveIncreasing(s.slots, e.id); }
    if s.todo != [] {
      var rest := s.todo[1..];
      assert Increasing(rest) && forall k <- rest :: k in s.todo;
    }
    if e.Subscribe? {
      forall j | 0 <= j < |s.slots| ensures s.slots[j] < |s.subs| { assert s.slots[j] in s.slots; }
    }
  }

  lemma {:induction false} StepLocal(s: State, e: Event)
    requires Inv(s) && Enabled(s, e)
    ensures forall b <- Fire(s, e).subs :: Local(b)
  {
    var t := Fire(s, e);
    forall k | 0 <= k < |t.subs| ensures Local(t.subs[k]) {
      if k < |s.subs| { assert Local(s.subs[k]) && Placed(s, k); }
    }
  }

  lemma {:induction false} StepPlaced(s: State, e: Event, k: nat)
    requires Inv(s) && Enabled(s, e) && k < |Fire(s, e).subs|
    ensures Placed(Fire(s, e), k)
  {
    var t := Fire(s, e);
    if k < |s.subs| {
      assert Local(s.subs[k]) && Placed(s, k);
      if s.todo != [] && t.todo == s.todo[1..] {
        assert k in t.todo <==> k in s.todo && k != s.todo[0];
      }
    }
  }

  /** Every atomic step keeps the invariant. */
  lemma {:induction false} StepInv(s: State, e: Event)
    requires Inv(s) && Enabled(s, e)
    ensures Inv(Fire(s, e))
  {
    hide Lists, Local, Placed, Fire, Enabled;
    StepLists(s, e);
    StepLocal(s, e);
    forall k | 0 <= k < |Fire(s, e).subs| ensures Placed(Fire(s, e), k) { StepPlaced(s, e, k); }
  }

  // --------------------------------------------------------------------- runs

  ghost predicate IsRun(states: seq<State>, events: seq<Event>) {
    && |states| == |events| + 1 && states[0] == Start()
    && forall i :: 0 <= i < |events| ==> Enabled(states[i], events[i]) && states[i + 1] == Fire(states[i], events[i])
  }

  lemma {:induction false} RunInv(states: seq<State>, events: seq<Event>, i: nat)
    requires IsRun(states, events) && i < |states|
    ensures Inv(states[i])
  {
    hide Local, Placed, Fire, Enabled;
    if i > 0 {
      RunInv(states, events, i - 1);
      StepInv(states[i - 1], events[i - 1]);
    }
  }

  /** One step, seen from one subscription. */
  ghost predicate Orderly(b: Sub, c: Sub) {
    // a callback runs at most once, and starts only while its slot is filled: never after the lease destructor returned
    && b.runs <= c.runs <= 1 && (b.runs < c.runs ==> b.callback && !b.phase.Cleared? && !b.phase.Ended?)
    // cancel() starts only under a live binding, at most once, and the binding cannot end while it runs
    && b.cancels <= c.cancels <= 1 && (b.cancels < c.cancels ==> b.active && c.cancelling)
    && (c.cancelling ==> c.active && !c.phase.Ended?)
    && (b.phase.Ended? ==> c.phase.Ended?)
    && (b.phase.Cleared? || b.phase.Ended? ==> c.phase.Cleared? || c.phase.Ended?)
    // the destructor returns while the callback runs only when the callback itself dropped the lease
    && (c.phase.Ended? ==> !c.cancelling)
  }

  lemma {:induction false} StepIsOrderly(s: State, e: Event, k: nat)
    requires Inv(s) && Enabled(s, e) && Inv(Fire(s, e)) && k < |s.subs|
    ensures |s.subs| <= |Fire(s, e).subs| && Orderly(s.subs[k], Fire(s, e).subs[k])
  {
    hide Lists;
    var t := Fire(s, e);
    assert Local(s.subs[k]) && Placed(s, k);
    assert Local(t.subs[k]);
  }

  lemma {:induction false} EveryStepIsOrderly(states: seq<State>, events: seq<Event>, i: nat, k: nat)
    requires IsRun(states, events) && i < |events| && k < |states[i].subs|
    ensures |states[i].subs| <= |states[i + 1].subs| && Orderly(states[i].subs[k], states[i + 1].subs[k])
  {
    hide Inv, Enabled, Fire, Orderly;
    RunInv(states, events, i);
    RunInv(states, events, i + 1);
    StepIsOrderly(states[i], events[i], k);
  }

  /** After the lease destructor has returned the callback never starts again, in any continuation. */
  lemma {:induction false} NeverStartsAfterRelease(states: seq<State>, events: seq<Event>, i: nat, j: nat, k: nat)
    requires IsRun(states, events) && i <= j < |states| && k < |states[i].subs|
    requires states[i].subs[k].phase.Cleared? || states[i].subs[k].phase.Ended?
    ensures k < |states[j].subs| && states[j].subs[k].runs == states[i].subs[k].runs
    ensures states[j].subs[k].phase.Cleared? || states[j].subs[k].phase.Ended?
    decreases j
  {
    hide Inv, Enabled, Fire;
    if i < j {
      NeverStartsAfterRelease(states, events, i, j - 1, k);
      EveryStepIsOrderly(states, events, j - 1, k);
    }
  }

  /** After a binding ended its connection is never cancelled again. */
  lemma {:induction false} NeverCancelsAfterBinding(states: seq<State>, events: seq<Event>, i: nat, j: nat, k: nat)
    requires IsRun(states, events) && i <= j < |states| && k < |states[i].subs| && states[i].subs[k].phase.Ended?
    ensures k < |states[j].subs| && states[j].subs[k].cancels == states[i].subs[k].cancels
      && !states[j].subs[k].cancelling
    ensures states[j].subs[k].phase.Ended?
    decreases j
  {
    hide Inv, Enabled, Fire;
    if i < j {
      NeverCancelsAfterBinding(states, events, i, j - 1, k);
      EveryStepIsOrderly(states, events, j - 1, k);
      EndedIsInactive(states, events, j - 1, k);
    } else {
      EndedIsInactive(states, events, i, k);
    }
  }

  lemma {:induction false} EndedIsInactive(states: seq<State>, events: seq<Event>, i: nat, k: nat)
    requires IsRun(states, events) && i < |states| && k < |states[i].subs|
    ensures states[i].subs[k].phase.Ended? ==> !states[i].subs[k].active && !states[i].subs[k].cancelling
  {
    RunInv(states, events, i);
    assert Local(states[i].subs[k]);
  }

  /** No lost cancellation: once the request has gone through its list, every lease still held has been called, once. */
  lemma {:induction false} NoLostCancellation(states: seq<State>, events: seq<Event>, i: nat, k: nat)
    requires IsRun(states, events) && i < |states| && k < |states[i].subs|
    requires states[i].requested && states[i].todo == [] && states[i].subs[k].phase.Held?
    ensures states[i].subs[k].runs == 1
  {
    RunInv(states, events, i);
    assert Placed(states[i], k) && Local(states[i].subs[k]);
  }

  /** When the request reaches a slot whose lease destructor has not returned, the callback runs, for the first time. */
  lemma {:induction false} ReachedLeaseRuns(states: seq<State>, events: seq<Event>, i: nat)
    requires IsRun(states, events) && i < |events| && events[i].Reach?
    ensures var k := states[i].todo[0];
      && k < |states[i].subs| && states[i].subs[k].runs == 0
      && (states[i].subs[k].phase.Held? || states[i].subs[k].phase.Erased? <==> states[i + 1].subs[k].runs == 1)
  {
    RunInv(states, events, i);
    var k := states[i].todo[0];
    assert Local(states[i].subs[k]) && Placed(states[i], k);
    assert k in states[i].todo;
    assert states[i + 1] == Fire(states[i], events[i]);
  }

  /** A subscriber that came after the request is called before subscribe hands out its lease. */
  lemma {:induction false} LateSubscriberIsCalled(states: seq<State>, events: seq<Event>, i: nat)
    requires IsRun(states, events) && i < |events| && events[i].SelfReturn?
    ensures var k := events[i].id; states[i + 1].subs[k].phase.Held? && states[i + 1].subs[k].runs == 1
  {
    RunInv(states, events, i);
    assert Local(states[i].subs[events[i].id]);
    assert states[i + 1] == Fire(states[i], events[i]);
  }
}

/**
  The objects behind the stop signal and the operation tree, with the fields
  they update under their locks or by compare-exchange.
*/
module OperationClasses {
  import SS = StopSignal
  import OT = OperationTree

  /** StopSignal. `model` follows the protocol; the fields are the signal's own. */
  class Signal {
    var requested: bool
    var slots: seq<nat>
    var next: nat
    ghost var model: SS.State

    ghost predicate Valid() reads this {
      requested == model.requested && slots == model.slots && next == |model.subs| && SS.Inv(model)
    }

    constructor ()
      ensures Valid() && model == SS.Start()
    {
      requested, slots, next := false, [], 0;
      model := SS.Start();
    }

    ghost method Follow(e: SS.Event)
      requires SS.Inv(model) && SS.Enabled(model, e)
      modifies this`model
      ensures SS.Inv(model) && model == SS.Fire(old(model), e)
    {
      SS.StepInv(model, e);
      model := SS.Fire(model, e);
    }

    /** The locked region of subscribe: `call` tells the subscriber to run its own callback. */
    method Subscribe() returns (id: nat, call: bool)
      requires Valid()
      modifies this
      ensures Valid() && model == SS.Fire(old(model), SS.Subscribe)
      ensures id == old(next) && (call <==> model.subs[id].phase.Calling?) && (!call <==> id in slots)
    {
      id, call := next, requested;
      next := next + 1;
      if !call { slots := slots + [id]; }
      Follow(SS.Subscribe);
      assert SS.Placed(model, id);
    }

    /** The locked region of request: only the first caller gets callbacks to run. */
    method Request() returns (first: bool, callbacks: seq<nat>)
      requires Valid()
      modifies this
      ensures Valid() && model == SS.Fire(old(model), SS.Request) && requested
      ensures first == !old(requested) && callbacks == if first then model.todo else []
    {
      first := !requested;
      callbacks := [];
      requested := true;
      if first { callbacks := slots; }
      Follow(SS.Request);
    }

    /** The first locked region of a lease's destructor. */
    method Unsubscribe(id: nat)
      requires Valid() && SS.Enabled(model, SS.Erase(id))
      modifies this
      ensures Valid() && model == SS.Fire(old(model), SS.Erase(id)) && id !in slots
    {
      slots := SS.Remove(slots, id);
      Follow(SS.Erase(id));
    }
  }

  /** OperationState: the reason is an atomic written by compare-exchange. */
  class OperationState {
    var reason: OT.Code
    var deadline: nat
    var fallback: bool

    /** Created below `parent`: the earliest of the deadline given, the timeout counted from now and the parent's
        deadline, and never more permission than the parent's. */
    constructor (now: nat, limit: nat, timeout: int, given: nat, allow: bool, parent: OperationState?)
      ensures reason == OT.Ok
      ensures deadline <= given && (timeout > 0 && now + timeout < limit ==> deadline <= now + timeout)
      ensures || deadline == given || (timeout > 0 && now + timeout < limit && deadline == now + timeout)
              || (parent != null && deadline == parent.deadline)
      ensures fallback == (allow && (parent == null || parent.fallback))
      ensures parent != null ==> deadline <= parent.deadline
    {
      reason := OT.Ok;
      var own := given;
      if timeout > 0 && now + timeout < limit && now + timeout < given { own := now + timeout; }
      deadline := if parent == null || own < parent.deadline then own else parent.deadline;
      fallback := allow && (parent == null || parent.fallback);
    }

    /** The head of stop: true exactly when this call wrote the reason. */
    method TryStop(code: OT.Code, ghost o: OT.Op) returns (won: bool)
      requires o.reason == reason && OT.OpOk(o)
      modifies this`reason
      ensures reason == OT.TryStop(o, code).reason
      ensures won <==> o.phase.Open? && OT.TryStop(o, code).phase.Won?
      ensures old(reason) != OT.Ok ==> reason == old(reason) && !won
    {
      if code == OT.Ok || reason != OT.Ok { return false; }
      reason := code;
      won := true;
    }

    method Status(now: nat, ghost s: OT.State, ghost k: nat) returns (code: OT.Code)
      requires k < |s.ops| && s.ops[k].reason == reason && s.ops[k].deadline == deadline && s.now == now
      ensures code == OT.Status(s, k)
    {
      code := reason;
      if code == OT.Ok && now >= deadline { code := OT.QueryTimeout; }
    }
  }

  /** Pending of controlledCompletion: `done` and the stored completion change together, under its lock. */
  class Pending {
    var done: bool
    var completion: bool

    ghost predicate Valid() reads this { completion == !done }

    constructor ()
      ensures Valid() && !done
    {
      done, completion := false, true;
    }

    /** The locked region of deliver: one caller, ever, walks away with the completion. */
    method TakeTarget(ghost x: OT.Wrap, ghost own: OT.Code) returns (target: bool)
      requires Valid() && (done <==> !x.delivery.Idle?)
      modifies this
      ensures Valid() && done && (target <==> !old(done))
      ensures target <==> x.delivery.Idle? && OT.Take(x, own).delivery == OT.Taken(own)
      ensures !target ==> OT.Take(x, own) == x
    {
      if done { return false; }
      done := true;
      target := completion;
      completion := false;
    }
  }
}

/**
  The shared control block of a native query. Its fields are the ones the
  callbacks flip; `model` follows the protocol state they belong to. Each
  method is one access of a callback and returns what the callback branches on.
*/
module NativeQueryControl {
  import opened NativeQuery

  class Control {
    var resolved: bool
    var driverCompleted: bool
    var timeoutDelivered: bool
    var handle: bool
    var invalidated: bool
    var stopLease: bool
    ghost var model: State

    ghost predicate Valid() reads this {
      && resolved == model.resolved && driverCompleted == model.driverCompleted
      && timeoutDelivered == model.timeoutDelivered && handle == model.held
      && invalidated == model.invalidated && stopLease == model.lease && Inv(model)
    }

    constructor (bound: bool)
      ensures Valid() && model == Start(bound)
    {
      resolved, driverCompleted, timeoutDelivered := false, false, false;
      handle, invalidated, stopLease := true, false, bound;
      model := Start(bound);
      new;
      InitInv(model);
    }

    ghost method Follow(e: Event)
      requires Inv(model) && Enabled(model, e)
      modifies this`model
      ensures Inv(model) && model == Fire(old(model), e)
    {
      StepInv(model, e);
      model := Fire(model, e);
    }

    /** releaseStop, for the four places that call it. */
    method ReleaseStop(ghost e: Event)
      requires Valid() && Enabled(model, e)
      requires e.RefusedUnbind? || e.DeliverUnbind? || e.ReleaseUnbind? || e.TimeoutUnbind?
      modifies this
      ensures Valid() && model == Fire(old(model), e) && !stopLease && handle == old(handle)
    {
      stopLease := false;
      Follow(e);
    }

    /** handle->reset(), for the three places that call it: only ever after the driver finished. */
    method Reset(ghost e: Event)
      requires Valid() && Enabled(model, e) && (e.DeliverReset? || e.ReleaseReset? || e.TimeoutReset?)
      modifies this
      ensures Valid() && model == Fire(old(model), e) && !handle && driverCompleted && !stopLease
    {
      handle := false;
      Follow(e);
    }

    /** The callback's first access; what the driver reported stays in the callback. */
    method DriverFinished(ghost broken: bool)
      requires Valid() && Enabled(model, DriverStore(broken))
      modifies this
      ensures Valid() && model == Fire(old(model), DriverStore(broken))
    {
      driverCompleted := true;
      Follow(DriverStore(broken));
    }

    /** The driver's exchange: false means it must deliver the result. */
    method DriverResolve() returns (lost: bool)
      requires Valid() && Enabled(model, DriverExchange)
      modifies this
      ensures Valid() && model == Fire(old(model), DriverExchange)
      ensures lost <==> TimerWon(model)
    {
      lost := resolved;
      resolved := true;
      Follow(DriverExchange);
    }

    /** The loser's read: true means it must give the connection back. */
    method DriverLate() returns (mustRelease: bool)
      requires Valid() && Enabled(model, DriverLoad)
      modifies this
      ensures Valid() && model == Fire(old(model), DriverLoad) && (mustRelease <==> model.release.ReleaseUnbinding?)
    {
      mustRelease := timeoutDelivered;
      Follow(DriverLoad);
    }

    /** The timer's exchange: false means it must cancel and deliver the timeout. */
    method TimerResolve() returns (lost: bool)
      requires Valid() && Enabled(model, TimerExchange)
      modifies this
      ensures Valid() && model == Fire(old(model), TimerExchange)
      ensures lost <==> DriverWon(model)
    {
      lost := resolved;
      resolved := true;
      Follow(TimerExchange);
    }

    /** Under handleMutex: cancel only what is still held. */
    method CancelIfHeld() returns (cancelled: bool)
      requires Valid() && Enabled(model, TimerCancel)
      modifies this
      ensures Valid() && model == Fire(old(model), TimerCancel)
      ensures model.cancels == old(model).cancels + (if cancelled then 1 else 0) && (cancelled ==> handle)
    {
      cancelled := handle;
      Follow(TimerCancel);
    }

    method Invalidate()
      requires Valid() && Enabled(model, DeliverInvalidate)
      modifies this
      ensures Valid() && model == Fire(old(model), DeliverInvalidate) && invalidated
    {
      if handle { invalidated := true; }
      Follow(DeliverInvalidate);
    }

    method TimeoutAnnounced()
      requires Valid() && Enabled(model, TimeoutMark)
      modifies this
      ensures Valid() && model == Fire(old(model), TimeoutMark)
    {
      timeoutDelivered := true;
      Follow(TimeoutMark);
    }

    method TimeoutLast() returns (mustRelease: bool)
      requires Valid() && Enabled(model, TimeoutRead)
      modifies this
      ensures Valid() && model == Fire(old(model), TimeoutRead) && (mustRelease <==> model.timeout.TimeoutUnbinding?)
    {
      mustRelease := driverCompleted;
      Follow(TimeoutRead);
    }
  }
}

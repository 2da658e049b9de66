/**
  A native query on one borrowed connection: the driver's callback, the
  client-side timeout and the continuations they deliver race over three atomic
  flags. Each constructor of `Event` is one atomic step of one of them; the
  driver, the executor and the operation's stop signal choose freely.
*/
module NativeQuery {
  /** The thread that called `queryAsync`. */
  datatype Caller = Calling | RefusedUnbinding | RefusedMoving | Refused | Started

  /** The driver's callback. */
  datatype Driver = Pending | Stored | LostRace | Returned

  /** The timer task; `delivered` is the answer of the executor to the timeout continuation. */
  datatype Timer = Off | Armed | Locking | Posting | Cancelling(delivered: bool) | Unlocking(delivered: bool) | Over

  /** Continuation delivering the driver's result. */
  datatype Delivery = NoDelivery | Unbinding | Checking | Invalidating | Rendering | Resetting | Completing | Delivered

  /** Continuation giving the connection back after a delivered timeout. */
  datatype Release = NoRelease | ReleaseUnbinding | ReleaseResetting | Released

  /** Continuation delivering the timeout. */
  datatype Timeout = NoTimeout | Announcing | Marking | Reading | TimeoutUnbinding | TimeoutResetting | TimedOut

  datatype Outcome = Answer | Stopped | Expired

  datatype State = State(
    resolved: bool, driverCompleted: bool, timeoutDelivered: bool,
    held: bool,            // the handle still owns the connection
    moved: bool,           // the handle went to the blocking fallback
    broken: bool,          // the driver reported a broken connection
    invalidated: bool,
    lease: bool,           // the stop binding is live
    stopping: bool,        // the stop signal is inside cancel()
    stopRan: bool,
    locked: bool,          // the timer owns handleMutex
    caller: Caller, driver: Driver, timer: Timer,
    delivery: Delivery, release: Release, timeout: Timeout, outcome: Outcome,
    completions: seq<Outcome>, releases: nat, cancels: nat)

  datatype Event =
    | QueryRefused | RefusedUnbind | RefusedMove | QueryStarted(timed: bool)
    | DriverStore(broken: bool) | DriverExchange | DriverLoad
    | TimerExchange | TimerLock | TimerPost(accepted: bool) | TimerCancel | TimerUnlock
    | DeliverUnbind | DeliverCheck(stopped: bool) | DeliverInvalidate | DeliverRender | DeliverReset | DeliverComplete
    | ReleaseUnbind | ReleaseReset
    | TimeoutComplete | TimeoutMark | TimeoutRead | TimeoutUnbind | TimeoutReset
    | StopEnter | StopLeave

  predicate Init(s: State) {
    exists bound: bool :: s == Start(bound)
  }

  /** The state in which `queryAsync` is called; `bound` says whether an operation can stop the query. */
  function Start(bound: bool): State {
    State(false, false, false, true, false, false, false, bound, false, false, false,
          Calling, Pending, Off, NoDelivery, NoRelease, NoTimeout, Answer, [], 0, 0)
  }

  /** Ending the stop binding waits for a cancel() already running. */
  predicate CanUnbind(s: State) { !s.stopping }

  predicate Enabled(s: State, e: Event) {
    match e
    case QueryRefused => s.caller.Calling? && s.driver.Pending?
    case RefusedUnbind => s.caller.RefusedUnbinding? && CanUnbind(s)
    case RefusedMove => s.caller.RefusedMoving?
    case QueryStarted(_) => s.caller.Calling?
    case DriverStore(_) => s.driver.Pending? && (s.caller.Calling? || s.caller.Started?)
    case DriverExchange => s.driver.Stored?
    case DriverLoad => s.driver.LostRace?
    case TimerExchange => s.timer.Armed?
    case TimerLock => s.timer.Locking? && !s.locked
    case TimerPost(_) => s.timer.Posting?
    case TimerCancel => s.timer.Cancelling?
    case TimerUnlock => s.timer.Unlocking?
    case DeliverUnbind => s.delivery.Unbinding? && CanUnbind(s)
    case DeliverCheck(_) => s.delivery.Checking?
    case DeliverInvalidate => s.delivery.Invalidating? && !s.locked
    case DeliverRender => s.delivery.Rendering? && !s.locked
    case DeliverReset => s.delivery.Resetting? && !s.locked
    case DeliverComplete => s.delivery.Completing?
    case ReleaseUnbind => s.release.ReleaseUnbinding? && CanUnbind(s)
    case ReleaseReset => s.release.ReleaseResetting? && !s.locked
    case TimeoutComplete => s.timeout.Announcing?
    case TimeoutMark => s.timeout.Marking?
    case TimeoutRead => s.timeout.Reading?
    case TimeoutUnbind => s.timeout.TimeoutUnbinding? && CanUnbind(s)
    case TimeoutReset => s.timeout.TimeoutResetting? && !s.locked
    case StopEnter => s.lease && !s.stopRan
    case StopLeave => s.stopping
  }

  function ResetHandle(s: State): State {
    s.(held := false, releases := if s.held then s.releases + 1 else s.releases)
  }

  function Fire(s: State, e: Event): State
    requires Enabled(s, e)
  {
    match e
    case QueryRefused => s.(caller := RefusedUnbinding)
    case RefusedUnbind => s.(caller := RefusedMoving, lease := false)
    case RefusedMove => s.(caller := Refused, held := false, moved := true)
    case QueryStarted(timed) => s.(caller := Started, timer := if timed then Armed else Off)
    case DriverStore(broken) => s.(driver := Stored, driverCompleted := true, broken := broken)
    case DriverExchange =>
      s.(resolved := true, driver := if s.resolved then LostRace else Returned,
         delivery := if s.resolved then s.delivery else Unbinding)
    case DriverLoad =>
      s.(driver := Returned, release := if s.timeoutDelivered then ReleaseUnbinding else NoRelease)
    case TimerExchange =>
      s.(resolved := true, timer := if s.resolved then Over else Locking)
    case TimerLock => s.(timer := Posting, locked := true)
    case TimerPost(accepted) =>
      s.(timer := Cancelling(accepted), timeout := if accepted then Announcing else s.timeout)
    case TimerCancel =>
      s.(timer := Unlocking(s.timer.delivered), cancels := if s.held then s.cancels + 1 else s.cancels)
    case TimerUnlock =>
      s.(timer := Over, locked := false, timeout := if s.timer.delivered then s.timeout else Announcing)
    case DeliverUnbind => s.(delivery := Checking, lease := false)
    case DeliverCheck(stopped) =>
      s.(delivery := if stopped || s.broken then Invalidating else Rendering,
         outcome := if stopped then Stopped else Answer)
    case DeliverInvalidate => s.(delivery := Rendering, invalidated := s.invalidated || s.held)
    case DeliverRender => s.(delivery := Resetting)
    case DeliverReset => ResetHandle(s).(delivery := Completing)
    case DeliverComplete => s.(delivery := Delivered, completions := s.completions + [s.outcome])
    case ReleaseUnbind => s.(release := ReleaseResetting, lease := false)
    case ReleaseReset => ResetHandle(s).(release := Released)
    case TimeoutComplete => s.(timeout := Marking, completions := s.completions + [Expired])
    case TimeoutMark => s.(timeout := Reading, timeoutDelivered := true)
    case TimeoutRead => s.(timeout := if s.driverCompleted then TimeoutUnbinding else TimedOut)
    case TimeoutUnbind => s.(timeout := TimeoutResetting, lease := false)
    case TimeoutReset => ResetHandle(s).(timeout := TimedOut)
    case StopEnter => s.(stopping := true, stopRan := true, cancels := s.cancels + 1)
    case StopLeave => s.(stopping := false)
  }

  // ---------------------------------------------------------------- invariant

  predicate DriverWon(s: State) { !s.delivery.NoDelivery? }

  predicate TimerWon(s: State) {
    s.timer.Locking? || s.timer.Posting? || s.timer.Cancelling? || s.timer.Unlocking? || !s.timeout.NoTimeout?
  }

  predicate TimeoutRan(s: State) { !s.timeout.NoTimeout? && !s.timeout.Announcing? }

  predicate IsRefusal(c: Caller) { c.RefusedUnbinding? || c.RefusedMoving? || c.Refused? }

  /** Exactly one side flipped `resolved`, and only that side owns a completion. */
  predicate Race(s: State) {
    && (s.resolved <==> DriverWon(s) || TimerWon(s))
    && !(DriverWon(s) && TimerWon(s))
    && (s.driverCompleted <==> !s.driver.Pending?)
    && (s.driver.LostRace? ==> TimerWon(s))
    && (DriverWon(s) ==> s.driver.Returned?)
    && (s.driver.Returned? ==> DriverWon(s) || TimerWon(s))
    && (s.timeoutDelivered <==> TimeoutRan(s) && !s.timeout.Marking?)
    && (!s.release.NoRelease? ==> s.driver.Returned? && s.timeoutDelivered && !DriverWon(s))
    && (s.locked <==> s.timer.Posting? || s.timer.Cancelling? || s.timer.Unlocking?)
    && ((s.timer.Cancelling? || s.timer.Unlocking?) ==> (s.timer.delivered <==> !s.timeout.NoTimeout?))
    && ((s.timer.Locking? || s.timer.Posting? || s.timer.Off? || s.timer.Armed?) ==> s.timeout.NoTimeout?)
    && (s.caller.Calling? ==> s.timer.Off?)
    && (IsRefusal(s.caller) ==> s.driver.Pending? && s.timer.Off?)
    && s.completions == (if s.delivery.Delivered? then [s.outcome] else if TimeoutRan(s) then [Expired] else [])
  }

  /** Past the point where a broken or stopped query's connection is invalidated. */
  predicate Checked(d: Delivery) { d.Rendering? || d.Resetting? || d.Completing? || d.Delivered? }

  /** The connection, its stop binding and the cancels that may still run. */
  predicate Custody(s: State) {
    && (s.lease ==> s.held)
    && (s.stopping ==> s.lease && s.stopRan)
    && (!s.held ==> s.moved || s.driverCompleted)
    && (s.moved <==> s.caller.Refused?) && (s.moved ==> !s.held)
    && s.releases == (if s.held || s.moved then 0 else 1)
    && (DriverWon(s) && !s.delivery.Completing? && !s.delivery.Delivered? ==> s.held)
    && (s.delivery.Completing? || s.delivery.Delivered? ==> !s.held)
    && (DriverWon(s) && !s.delivery.Unbinding? ==> !s.lease)
    && (TimerWon(s) && !s.timeoutDelivered ==> s.held)
    && (s.timeout.TimeoutResetting? || s.release.ReleaseResetting? ==> !s.lease)
    && (s.release.Released? ==> !s.held)
    && (s.caller.RefusedUnbinding? || s.caller.RefusedMoving? ==> s.held) && (s.caller.RefusedMoving? ==> !s.lease)
    && (!DriverWon(s) && !TimerWon(s) && !IsRefusal(s.caller) ==> s.held)
    // whoever comes second sees the other: no connection is forgotten
    && (s.timeout.TimedOut? ==>
      !s.held || s.driver.Pending? || s.driver.Stored? || s.driver.LostRace? || !s.release.NoRelease?)
    && (s.timeout.TimeoutUnbinding? || s.timeout.TimeoutResetting? ==> s.driverCompleted)
    && (s.delivery.Invalidating? || s.delivery.Checking? || s.delivery.Rendering? ==> s.held)
    // only a delivery invalidates, exactly the broken and the stopped, before it renders
    && (s.invalidated ==> DriverWon(s) && (s.broken || s.outcome.Stopped?))
    && (s.delivery.Invalidating? ==> s.broken || s.outcome.Stopped?)
    && (Checked(s.delivery) && (s.broken || s.outcome.Stopped?) ==> s.invalidated)
    && (s.outcome.Stopped? ==> s.delivery.Invalidating? || Checked(s.delivery))
    && !s.outcome.Expired?
  }

  predicate Inv(s: State) { Race(s) && Custody(s) }

  lemma {:induction false} InitInv(s: State)
    requires Init(s)
    ensures Inv(s)
  {
  }

  /** Steps of the calling thread and of the driver callback. */
  predicate FromCall(e: Event) {
    || e.QueryRefused? || e.RefusedUnbind? || e.RefusedMove? || e.QueryStarted?
    || e.DriverStore? || e.DriverExchange? || e.DriverLoad?
  }

  /** Steps of the timer. */
  predicate FromTimer(e: Event) {
    || e.TimerExchange? || e.TimerLock? || e.TimerPost? || e.TimerCancel? || e.TimerUnlock?
  }

  /** Steps of the continuation that delivers the driver's result. */
  predicate FromDelivery(e: Event) {
    || e.DeliverUnbind? || e.DeliverCheck? || e.DeliverInvalidate? || e.DeliverRender? || e.DeliverReset?
    || e.DeliverComplete?
  }

  /** Steps of the continuation that delivers the timeout. */
  predicate FromTimeout(e: Event) {
    || e.TimeoutComplete? || e.TimeoutMark? || e.TimeoutRead? || e.TimeoutUnbind? || e.TimeoutReset?
  }

  /** Steps of the late release and of the stop signal. */
  predicate FromLate(e: Event) {
    || e.ReleaseUnbind? || e.ReleaseReset? || e.StopEnter? || e.StopLeave?
  }

  lemma {:induction false} CallRace(s: State, e: Event)
    requires Inv(s) && Enabled(s, e) && FromCall(e)
    ensures Race(Fire(s, e))
  {
  }

  lemma {:induction false} CallCustody(s: State, e: Event)
    requires Inv(s) && Enabled(s, e) && FromCall(e)
    ensures Custody(Fire(s, e))
  {
  }

  lemma {:induction false} TimerRace(s: State, e: Event)
    requires Inv(s) && Enabled(s, e) && FromTimer(e)
    ensures Race(Fire(s, e))
  {
  }

  lemma {:induction false} TimerCustody(s: State, e: Event)
    requires Inv(s) && Enabled(s, e) && FromTimer(e)
    ensures Custody(Fire(s, e))
  {
  }

  lemma {:induction false} DeliveryRace(s: State, e: Event)
    requires Inv(s) && Enabled(s, e) && FromDelivery(e)
    ensures Race(Fire(s, e))
  {
  }

  lemma {:induction false} DeliveryCustody(s: State, e: Event)
    requires Inv(s) && Enabled(s, e) && FromDelivery(e)
    ensures Custody(Fire(s, e))
  {
  }

  lemma {:induction false} TimeoutRace(s: State, e: Event)
    requires Inv(s) && Enabled(s, e) && FromTimeout(e)
    ensures Race(Fire(s, e))
  {
  }

  lemma {:induction false} TimeoutCustody(s: State, e: Event)
    requires Inv(s) && Enabled(s, e) && FromTimeout(e)
    ensures Custody(Fire(s, e))
  {
  }

  lemma {:induction false} LateRace(s: State, e: Event)
    requires Inv(s) && Enabled(s, e) && FromLate(e)
    ensures Race(Fire(s, e))
  {
  }

  lemma {:induction false} LateCustody(s: State, e: Event)
    requires Inv(s) && Enabled(s, e) && FromLate(e)
    ensures Custody(Fire(s, e))
  {
  }

  lemma {:induction false} SomeGroup(e: Event)
    ensures FromCall(e) || FromTimer(e) || FromDelivery(e) || FromTimeout(e) || FromLate(e)
  {
  }

  /** Every atomic step keeps the invariant. */
  lemma {:induction false} StepInv(s: State, e: Event)
    requires Inv(s) && Enabled(s, e)
    ensures Inv(Fire(s, e))
  {
    hide Race, Custody, Enabled, Fire, FromCall, FromTimer, FromDelivery, FromTimeout, FromLate;
    SomeGroup(e);
    if FromCall(e) { CallRace(s, e); CallCustody(s, e); }
    else if FromTimer(e) { TimerRace(s, e); TimerCustody(s, e); }
    else if FromDelivery(e) { DeliveryRace(s, e); DeliveryCustody(s, e); }
    else if FromTimeout(e) { TimeoutRace(s, e); TimeoutCustody(s, e); }
    else if FromLate(e) { LateRace(s, e); LateCustody(s, e); }
  }

  // --------------------------------------------------------------------- runs

  ghost predicate IsRun(states: seq<State>, events: seq<Event>) {
    && |states| == |events| + 1 && Init(states[0])
    && forall i :: 0 <= i < |events| ==> Enabled(states[i], events[i]) && states[i + 1] == Fire(states[i], events[i])
  }

  lemma {:induction false} RunInv(states: seq<State>, events: seq<Event>, i: nat)
    requires IsRun(states, events) && i < |states|
    ensures Inv(states[i])
  {
    hide Inv, Enabled, Fire;
    if i == 0 {
      InitInv(states[0]);
    } else {
      RunInv(states, events, i - 1);
      StepInv(states[i - 1], events[i - 1]);
    }
  }

  /** What one step may do to the completion, the connection and cancel(). */
  ghost predicate Careful(before: State, after: State) {
    // the completion is called at most once, and never taken back
    && |after.completions| <= 1 && before.completions <= after.completions
    // the connection leaves the query only after the driver finished (or refused), its binding already ended
    && (before.held && !after.held ==> (before.driverCompleted || before.caller.RefusedMoving?) && !before.lease)
    && (!before.held ==> !after.held)
    // cancel() starts only on a held connection, and nothing takes the connection away while it runs
    && (before.cancels != after.cancels ==> before.held && after.held)
    && (before.stopping || before.locked ==> before.held == after.held)
    && (before.stopping ==> before.held && before.lease)
  }

  /** At most one completion, safe release and safe cancel at every step of every run. */
  lemma {:induction false} EveryStepIsCareful(states: seq<State>, events: seq<Event>, i: nat)
    requires IsRun(states, events) && i < |events|
    ensures Careful(states[i], states[i + 1])
  {
    RunInv(states, events, i);
    RunInv(states, events, i + 1);
    hide Inv, Enabled, Fire, Careful, FromCall, FromTimer, FromDelivery, FromTimeout, FromLate;
    var s, e := states[i], events[i];
    SomeGroup(e);
    if FromCall(e) { CallIsCareful(s, e); }
    else if FromTimer(e) { TimerIsCareful(s, e); }
    else if FromDelivery(e) { DeliveryIsCareful(s, e); }
    else if FromTimeout(e) { TimeoutIsCareful(s, e); }
    else if FromLate(e) { LateIsCareful(s, e); }
  }

  lemma {:induction false} CallIsCareful(s: State, e: Event)
    requires Inv(s) && Enabled(s, e) && Inv(Fire(s, e)) && FromCall(e)
    ensures Careful(s, Fire(s, e))
  {
  }

  lemma {:induction false} TimerIsCareful(s: State, e: Event)
    requires Inv(s) && Enabled(s, e) && Inv(Fire(s, e)) && FromTimer(e)
    ensures Careful(s, Fire(s, e))
  {
  }

  lemma {:induction false} DeliveryIsCareful(s: State, e: Event)
    requires Inv(s) && Enabled(s, e) && Inv(Fire(s, e)) && FromDelivery(e)
    ensures Careful(s, Fire(s, e))
  {
  }

  lemma {:induction false} TimeoutIsCareful(s: State, e: Event)
    requires Inv(s) && Enabled(s, e) && Inv(Fire(s, e)) && FromTimeout(e)
    ensures Careful(s, Fire(s, e))
  {
  }

  lemma {:induction false} LateIsCareful(s: State, e: Event)
    requires Inv(s) && Enabled(s, e) && Inv(Fire(s, e)) && FromLate(e)
    ensures Careful(s, Fire(s, e))
  {
  }

  /** The logging hook always finds a connection to render with. */
  lemma {:induction false} RenderHasConnection(states: seq<State>, events: seq<Event>, i: nat)
    requires IsRun(states, events) && i < |events| && events[i].DeliverRender?
    ensures states[i].held
  {
    RunInv(states, events, i);
  }

  // -------------------------------------------------------------- how runs end

  /** No thread, timer or continuation of the query is left. */
  predicate Finished(s: State) {
    && (s.caller.Refused? || (s.caller.Started? && s.driver.Returned?))
    && (s.timer.Off? || s.timer.Over?)
    && (s.delivery.NoDelivery? || s.delivery.Delivered?)
    && (s.release.NoRelease? || s.release.Released?)
    && (s.timeout.NoTimeout? || s.timeout.TimedOut?)
    && !s.stopping
  }

  /** Some step that a state which is not finished can take. */
  function Next(s: State): Event {
    if s.stopping then StopLeave
    else if s.caller.Calling? then QueryStarted(true)
    else if s.caller.RefusedUnbinding? then RefusedUnbind
    else if s.caller.RefusedMoving? then RefusedMove
    else if s.timer.Armed? then TimerExchange
    else if s.timer.Locking? then TimerLock
    else if s.timer.Posting? then TimerPost(true)
    else if s.timer.Cancelling? then TimerCancel
    else if s.timer.Unlocking? then TimerUnlock
    else if s.driver.Pending? then DriverStore(false)
    else if s.driver.Stored? then DriverExchange
    else if s.driver.LostRace? then DriverLoad
    else if s.delivery.Unbinding? then DeliverUnbind
    else if s.delivery.Checking? then DeliverCheck(false)
    else if s.delivery.Invalidating? then DeliverInvalidate
    else if s.delivery.Rendering? then DeliverRender
    else if s.delivery.Resetting? then DeliverReset
    else if s.delivery.Completing? then DeliverComplete
    else if s.release.ReleaseUnbinding? then ReleaseUnbind
    else if s.release.ReleaseResetting? then ReleaseReset
    else if s.timeout.Announcing? then TimeoutComplete
    else if s.timeout.Marking? then TimeoutMark
    else if s.timeout.Reading? then TimeoutRead
    else if s.timeout.TimeoutUnbinding? then TimeoutUnbind
    else TimeoutReset
  }

  function CallerLeft(c: Caller): nat {
    match c case Calling => 12 case RefusedUnbinding => 2 case RefusedMoving => 1 case _ => 0
  }

  function DriverLeft(d: Driver): nat {
    match d case Pending => 9 case Stored => 8 case LostRace => 3 case Returned => 0
  }

  function TimerLeft(t: Timer): nat {
    if t.Armed? then 11 else if t.Locking? then 10 else if t.Posting? then 9
    else if t.Cancelling? then (if t.delivered then 2 else 8)
    else if t.Unlocking? then (if t.delivered then 1 else 7)
    else 0
  }

  function DeliveryLeft(d: Delivery): nat {
    match d
    case Unbinding => 6 case Checking => 5 case Invalidating => 4 case Rendering => 3
    case Resetting => 2 case Completing => 1 case _ => 0
  }

  function ReleaseLeft(r: Release): nat {
    match r case ReleaseUnbinding => 2 case ReleaseResetting => 1 case _ => 0
  }

  function TimeoutLeft(t: Timeout): nat {
    match t
    case Announcing => 5 case Marking => 4 case Reading => 3
    case TimeoutUnbinding => 2 case TimeoutResetting => 1 case _ => 0
  }

  function StopLeft(ran: bool, stopping: bool): nat { if !ran then 2 else if stopping then 1 else 0 }

  /** Steps still possible, at most. */
  function Left(s: State): nat {
    CallerLeft(s.caller) + DriverLeft(s.driver) + TimerLeft(s.timer) + DeliveryLeft(s.delivery)
    + ReleaseLeft(s.release) + TimeoutLeft(s.timeout) + StopLeft(s.stopRan, s.stopping)
  }

  lemma {:induction false} CallDescends(s: State, e: Event)
    requires Enabled(s, e) && FromCall(e) && Race(s)
    ensures Left(Fire(s, e)) < Left(s)
  {
  }

  lemma {:induction false} TimerDescends(s: State, e: Event)
    requires Enabled(s, e) && FromTimer(e) && Race(s)
    ensures Left(Fire(s, e)) < Left(s)
  {
  }

  lemma {:induction false} DeliveryDescends(s: State, e: Event)
    requires Enabled(s, e) && FromDelivery(e)
    ensures Left(Fire(s, e)) < Left(s)
  {
  }

  lemma {:induction false} TimeoutDescends(s: State, e: Event)
    requires Enabled(s, e) && FromTimeout(e)
    ensures Left(Fire(s, e)) < Left(s)
  {
  }

  lemma {:induction false} LateDescends(s: State, e: Event)
    requires Enabled(s, e) && FromLate(e) && (s.stopping ==> s.stopRan)
    ensures Left(Fire(s, e)) < Left(s)
  {
  }

  lemma {:induction false} StepDescends(s: State, e: Event)
    requires Inv(s) && Enabled(s, e)
    ensures Left(Fire(s, e)) < Left(s)
  {
    hide Race, Enabled, Fire, Left, FromCall, FromTimer, FromDelivery, FromTimeout, FromLate;
    SomeGroup(e);
    if FromCall(e) { CallDescends(s, e); }
    else if FromTimer(e) { TimerDescends(s, e); }
    else if FromDelivery(e) { DeliveryDescends(s, e); }
    else if FromTimeout(e) { TimeoutDescends(s, e); }
    else if FromLate(e) { LateDescends(s, e); }
  }

  /** A state that is not finished can always move: the locks and bindings never deadlock. */
  lemma {:induction false} NeverStuck(s: State)
    requires Inv(s) && !Finished(s)
    ensures Enabled(s, Next(s))
  {
  }

  /** In the end the completion ran once and the connection went back once, or the query was refused untouched. */
  lemma {:induction false} FinishedExactlyOnce(s: State)
    requires Inv(s) && Finished(s)
    ensures !s.held && !s.lease
    ensures if s.caller.Refused? then s.moved && s.completions == [] && s.releases == 0
            else |s.completions| == 1 && s.releases == 1 && !s.moved
    ensures s.caller.Started? ==> (s.invalidated <==> DriverWon(s) && (s.broken || s.completions == [Stopped]))
  {
  }

  /** A finished query whose driver reported a broken connection gives it back un-invalidated exactly when the timer won
      the race: the late callback does not look at the status it received. */
  lemma {:induction false} BrokenConnectionReturnsIff(s: State)
    requires Inv(s) && Finished(s) && s.caller.Started? && s.broken
    ensures !s.invalidated <==> TimerWon(s)
    ensures TimerWon(s) <==> s.completions == [Expired]
  {
  }

  lemma {:induction false} RunIsShort(states: seq<State>, events: seq<Event>, i: nat)
    requires IsRun(states, events) && i < |states|
    ensures i + Left(states[i]) <= 23
  {
    hide Inv, Enabled, Fire;
    if i > 0 {
      RunIsShort(states, events, i - 1);
      RunInv(states, events, i - 1);
      StepDescends(states[i - 1], events[i - 1]);
    } else {
      StartLeft(states[0]);
    }
  }

  lemma {:induction false} StartLeft(s: State)
    requires Init(s)
    ensures Left(s) == 23
  {
  }

  /** Every run stops within 23 steps, and one that cannot go on has completed and released exactly once. */
  lemma {:induction false} EveryMaximalRunEndsWell(states: seq<State>, events: seq<Event>)
    requires IsRun(states, events) && forall e :: !Enabled(states[|events|], e)
    ensures |events| <= 23
    ensures var s := states[|events|];
      && Finished(s) && !s.held && !s.lease
      && (if s.caller.Refused? then s.moved && s.completions == [] && s.releases == 0
          else |s.completions| == 1 && s.releases == 1 && !s.moved)
  {
    hide Inv, Enabled, Fire;
    var s := states[|events|];
    RunInv(states, events, |events|);
    RunIsShort(states, events, |events|);
    if !Finished(s) { NeverStuck(s); assert false; }
    FinishedExactlyOnce(s);
  }

  // ------------------------------------------------------------ a run like that

  ghost predicate Reachable(s: State) {
    exists states: seq<State>, events: seq<Event> :: IsRun(states, events) && states[|events|] == s
  }

  lemma {:induction false} Begin(bound: bool)
    ensures Reachable(Start(bound))
  {
    assert IsRun([Start(bound)], []);
  }

  lemma {:induction false} Extend(s: State, e: Event)
    requires Reachable(s) && Enabled(s, e)
    ensures Reachable(Fire(s, e))
  {
    hide Enabled, Fire, Init;
    var states: seq<State>, events: seq<Event> :| IsRun(states, events) && states[|events|] == s;
    var states', events' := states + [Fire(s, e)], events + [e];
    forall i | 0 <= i < |events'|
      ensures Enabled(states'[i], events'[i]) && states'[i + 1] == Fire(states'[i], events'[i])
    {
      if i < |events| {
        assert states'[i] == states[i] && states'[i + 1] == states[i + 1] && events'[i] == events[i];
      }
    }
    assert IsRun(states', events');
  }

  /** The timer wins and times out; then the driver reports a broken connection, and the late release gives it back to
      the pool as it is. */
  lemma {:induction false} BrokenConnectionGoesBack() returns (s: State)
    ensures Reachable(s) && Finished(s) && s.caller.Started?
    ensures s.broken && !s.invalidated && !s.held && s.releases == 1 && s.completions == [Expired]
  {
    var timedOut := TimesOut();
    s := LateDriver(timedOut);
  }

  lemma {:induction false} TimesOut() returns (s: State)
    ensures Reachable(s)
    ensures s == Start(false).(
      resolved := true, timeoutDelivered := true, caller := Started, timer := Over, timeout := TimedOut,
      completions := [Expired], cancels := 1)
  {
    hide Reachable;
    s := Start(false);
    Begin(false);
    Extend(s, QueryStarted(true)); s := Fire(s, QueryStarted(true));
    Extend(s, TimerExchange); s := Fire(s, TimerExchange);
    Extend(s, TimerLock); s := Fire(s, TimerLock);
    Extend(s, TimerPost(true)); s := Fire(s, TimerPost(true));
    Extend(s, TimerCancel); s := Fire(s, TimerCancel);
    Extend(s, TimerUnlock); s := Fire(s, TimerUnlock);
    Extend(s, TimeoutComplete); s := Fire(s, TimeoutComplete);
    Extend(s, TimeoutMark); s := Fire(s, TimeoutMark);
    Extend(s, TimeoutRead); s := Fire(s, TimeoutRead);
  }

  lemma {:induction false} LateDriver(t: State) returns (s: State)
    requires Reachable(t)
    requires t == Start(false).(
      resolved := true, timeoutDelivered := true, caller := Started, timer := Over, timeout := TimedOut,
      completions := [Expired], cancels := 1)
    ensures Reachable(s) && Finished(s) && s.caller.Started?
    ensures s.broken && !s.invalidated && !s.held && s.releases == 1 && s.completions == [Expired]
  {
    hide Reachable;
    s := t;
    Extend(s, DriverStore(true)); s := Fire(s, DriverStore(true));
    Extend(s, DriverExchange); s := Fire(s, DriverExchange);
    Extend(s, DriverLoad); s := Fire(s, DriverLoad);
    Extend(s, ReleaseUnbind); s := Fire(s, ReleaseUnbind);
    Extend(s, ReleaseReset); s := Fire(s, ReleaseReset);
  }
}

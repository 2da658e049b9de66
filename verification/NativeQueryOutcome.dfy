/**
  What a native query answers, told from the events of its run: the driver's
  report, the check for a stop, and the timeout decide what the caller sees and
  what becomes of the connection.
*/
module NativeQueryOutcome {
  import opened NativeQuery

  /** Past the check for a stop. */
  predicate Decided(d: Delivery) { d.Invalidating? || Checked(d) }

  /** What the driver reported. */
  predicate ToldReport(s: State, past: seq<Event>) {
    && (s.driver.Pending? <==> DriverStore(true) !in past && DriverStore(false) !in past)
    && (s.broken <==> DriverStore(true) in past) && !(DriverStore(true) in past && DriverStore(false) in past)
  }

  /** What the check for a stop found, and whether a timeout was delivered. */
  predicate ToldOutcome(s: State, past: seq<Event>) {
    && (DeliverCheck(true) in past <==> Decided(s.delivery) && s.outcome.Stopped?)
    && (DeliverCheck(false) in past <==> Decided(s.delivery) && s.outcome.Answer?)
    && (TimeoutComplete in past <==> TimeoutRan(s))
  }

  /** How often cancel() was called; the timer holds the lock only while the connection is held. */
  predicate ToldCancels(s: State, past: seq<Event>) {
    s.cancels == multiset(past)[StopEnter] + multiset(past)[TimerCancel] && (s.locked ==> s.held)
  }

  lemma {:induction false} Longer(past: seq<Event>, e: Event, x: Event)
    ensures x in past + [e] <==> x in past || x == e
  {
  }

  /** What one step does to the driver's report, the outcome, the timeout, the cancels and the lock. */
  predicate Tells(s: State, e: Event, t: State) {
    && (e.DriverStore? ==> s.driver.Pending? && !t.driver.Pending? && t.broken == e.broken)
    && (!e.DriverStore? ==> t.driver.Pending? == s.driver.Pending? && t.broken == s.broken)
    && (e.DeliverCheck? ==> !Decided(s.delivery) && Decided(t.delivery)
                            && t.outcome == if e.stopped then Stopped else Answer)
    && (!e.DeliverCheck? ==> Decided(t.delivery) == Decided(s.delivery) && t.outcome == s.outcome)
    && (e.TimeoutComplete? ==> TimeoutRan(t)) && (!e.TimeoutComplete? ==> TimeoutRan(t) == TimeoutRan(s))
    && (e.StopEnter? || (e.TimerCancel? && s.held) ==> t.cancels == s.cancels + 1)
    && (!e.StopEnter? && !e.TimerCancel? ==> t.cancels == s.cancels)
    && (t.locked && !s.locked ==> e.TimerLock?) && (e.TimerLock? ==> t.held == s.held)
  }

  /** What a step needs to know of the race. */
  predicate Sane(s: State) {
    && (!s.resolved ==> s.delivery.NoDelivery?)
    && (s.timer.Posting? || (s.timer.Unlocking? && !s.timer.delivered) ==> s.timeout.NoTimeout?)
  }

  lemma {:induction false} CallTells(s: State, e: Event)
    requires Sane(s) && Enabled(s, e) && FromCall(e)
    ensures Tells(s, e, Fire(s, e))
  {
  }

  lemma {:induction false} TimerTells(s: State, e: Event)
    requires Sane(s) && Enabled(s, e) && FromTimer(e)
    ensures Tells(s, e, Fire(s, e))
  {
  }

  lemma {:induction false} DeliveryTells(s: State, e: Event)
    requires Sane(s) && Enabled(s, e) && FromDelivery(e)
    ensures Tells(s, e, Fire(s, e))
  {
  }

  lemma {:induction false} TimeoutTells(s: State, e: Event)
    requires Sane(s) && Enabled(s, e) && FromTimeout(e)
    ensures Tells(s, e, Fire(s, e))
  {
  }

  lemma {:induction false} LateTells(s: State, e: Event)
    requires Sane(s) && Enabled(s, e) && FromLate(e)
    ensures Tells(s, e, Fire(s, e))
  {
  }

  lemma {:induction false} StepTells(s: State, e: Event)
    requires Sane(s) && Enabled(s, e)
    ensures Tells(s, e, Fire(s, e))
  {
    hide Enabled, Fire, Tells, Sane, FromCall, FromTimer, FromDelivery, FromTimeout, FromLate;
    SomeGroup(e);
    if FromCall(e) { CallTells(s, e); }
    else if FromTimer(e) { TimerTells(s, e); }
    else if FromDelivery(e) { DeliveryTells(s, e); }
    else if FromTimeout(e) { TimeoutTells(s, e); }
    else if FromLate(e) { LateTells(s, e); }
  }

  lemma {:induction false} TellsReport(s: State, past: seq<Event>, e: Event, t: State)
    requires Tells(s, e, t) && ToldReport(s, past)
    ensures ToldReport(t, past + [e])
  {
    Longer(past, e, DriverStore(true)); Longer(past, e, DriverStore(false));
  }

  lemma {:induction false} TellsOutcome(s: State, past: seq<Event>, e: Event, t: State)
    requires Tells(s, e, t) && ToldOutcome(s, past) && !s.outcome.Expired?
    ensures ToldOutcome(t, past + [e])
  {
    hide Decided, TimeoutRan;
    Longer(past, e, DeliverCheck(true)); Longer(past, e, DeliverCheck(false)); Longer(past, e, TimeoutComplete);
  }

  lemma {:induction false} TellsCancels(s: State, past: seq<Event>, e: Event, t: State)
    requires Tells(s, e, t) && ToldCancels(s, past)
    requires (e.TimerCancel? ==> s.locked) && (e.TimerLock? ==> s.held) && (s.locked ==> s.held == t.held)
    ensures ToldCancels(t, past + [e])
  {
    hide Decided, TimeoutRan;
    assert multiset(past + [e]) == multiset(past) + multiset{e};
  }

  lemma {:induction false} UseInv(s: State, e: Event)
    requires Inv(s) && Enabled(s, e)
    ensures Sane(s) && !s.outcome.Expired? && (e.TimerCancel? ==> s.locked) && (e.TimerLock? ==> s.held)
  {
  }

  predicate Told(s: State, past: seq<Event>) { ToldReport(s, past) && ToldOutcome(s, past) && ToldCancels(s, past) }

  lemma {:induction false} StepTold(s: State, past: seq<Event>, e: Event)
    requires Inv(s) && Enabled(s, e) && Told(s, past) && Careful(s, Fire(s, e))
    ensures Told(Fire(s, e), past + [e])
  {
    hide Inv, Enabled, Fire, ToldReport, ToldOutcome, ToldCancels, Tells, Sane;
    UseInv(s, e);
    StepTells(s, e);
    TellsReport(s, past, e, Fire(s, e));
    TellsOutcome(s, past, e, Fire(s, e));
    TellsCancels(s, past, e, Fire(s, e));
  }

  lemma {:induction false} StartTold(s: State)
    requires Init(s)
    ensures Told(s, [])
  {
  }

  lemma {:induction false} RunTells(states: seq<State>, events: seq<Event>, i: nat)
    requires IsRun(states, events) && i < |states|
    ensures Told(states[i], events[..i])
  {
    hide Inv, Enabled, Fire, Told, Careful, Init;
    if i == 0 {
      StartTold(states[0]);
      assert events[..0] == [];
    } else {
      RunTells(states, events, i - 1);
      RunInv(states, events, i - 1);
      EveryStepIsCareful(states, events, i - 1);
      StepTold(states[i - 1], events[..i - 1], events[i - 1]);
      assert events[..i] == events[..i - 1] + [events[i - 1]];
    }
  }

  /** As soon as the completion has run: it carries the timeout, the stop or the driver's own answer, whichever the
      events say, and the connection is invalidated exactly when the check found a stop or the answer came with a broken
      connection. */
  lemma {:induction false} CompletionIs(states: seq<State>, events: seq<Event>, i: nat)
    requires IsRun(states, events) && i < |states| && states[i].completions != []
    ensures var s, past := states[i], events[..i];
      && (s.completions == [Expired] <==> TimeoutComplete in past)
      && (s.completions == [Stopped] <==> DeliverCheck(true) in past)
      && (s.completions == [Answer] <==> DeliverCheck(false) in past)
      && |s.completions| == 1
      && (s.invalidated <==>
            DeliverCheck(true) in past || (DeliverCheck(false) in past && DriverStore(true) in past))
  {
    hide Enabled, Fire;
    RunInv(states, events, i);
    RunTells(states, events, i);
  }

  /** A query that was started, has finished, met no stop and lost to no timer: the driver's answer arrives, and the
      connection goes back invalidated exactly when the driver called it broken. */
  lemma {:induction false} PlainQueryAnswers(states: seq<State>, events: seq<Event>)
    requires IsRun(states, events) && Finished(states[|events|]) && states[|events|].caller.Started?
    requires DeliverCheck(true) !in events && TimeoutComplete !in events
    ensures var s := states[|events|];
      && s.completions == [Answer] && s.releases == 1 && !s.held
      && (s.invalidated <==> DriverStore(true) in events)
  {
    hide Enabled, Fire, Race, Custody;
    var n := |events|;
    assert events[..n] == events;
    RunInv(states, events, n);
    FinishedExactlyOnce(states[n]);
    CompletionIs(states, events, n);
    var c := states[n].completions[0];
    assert states[n].completions == [c] && (c == Answer || c == Stopped || c == Expired);
  }

  /** cancel() is called once for each stop that enters and once by a timer that won, and by nobody else. */
  lemma {:induction false} CancelsAre(states: seq<State>, events: seq<Event>, i: nat)
    requires IsRun(states, events) && i < |states|
    ensures states[i].cancels == multiset(events[..i])[StopEnter] + multiset(events[..i])[TimerCancel]
  {
    RunTells(states, events, i);
  }
}

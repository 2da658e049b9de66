/**
  A write on a group of data sources: routing over the write targets, failover,
  and the write buffer. The group passes gate and interceptors itself and has
  each target run its attempts without them.
*/
module GroupWrite {
  import opened LeafWrite

  /** How the group calls a target: neither gate nor interceptors. */
  const BARE: Flags := Flags(false, false)

  function TargetTries(e: Env, i: int): seq<Act> { LeafActs(e, i, 1, BARE) }

  function TargetStatus(e: Env, i: int): Status { LeafStatus(e, i, 1, BARE) }

  // ------------------------------------------------------ the group: executeGroup

  function Finish(s: Status): seq<Act> { [After, Completed, Done(s)] }

  predicate MovesOn(e: Env, i: int) {
    e.eligible(i) && TargetStatus(e, i) != Success && !e.shadow && e.safe(TargetStatus(e, i))
  }

  /** What happens once no target is left. */
  function BufferActs(e: Env, last: Status): seq<Act> {
    var buffers := !e.shadow && e.bufferOn;
    (if buffers then [Buffer] else []) + Finish(if buffers && e.bufferTakes then Error(Buffered, false) else last)
  }

  function TargetActs(e: Env, i: nat): seq<Act>
    requires i < e.targets
    decreases e.targets - i
  {
    var s := TargetStatus(e, i);
    if !e.eligible(i) then [Target(i)] + Finish(Error(PoolClosed, true))
    else [Target(i)] + TargetTries(e, i) +
         if s == Success then (if e.shadow then [] else [MarkWrite]) + Finish(s)
         else if !MovesOn(e, i) then Finish(s)
         else if i + 1 < e.targets then TargetActs(e, i + 1)
         else BufferActs(e, s)
  }

  /** executeGroup; a refused post reports at once. */
  function Run(e: Env): seq<Act> {
    if !e.posted then [Done(Error(Overloaded, true))]
    else if e.preGate != Success then [PreGate, Done(e.preGate)]
    else if e.before != Success then [PreGate, Route, Before, Completed, Done(e.before)]
    else [PreGate, Route, Before] +
         if e.targets > 0 then TargetActs(e, 0) else BufferActs(e, Error(CircuitOpen, true))
  }

  // -------------------------------------------------------------- which targets

  /** Off the shadow route, target `j` was asked, failed, and the failure is judged safe to move on from. */
  predicate FailedSafely(e: Env, j: int) {
    && !e.shadow && e.eligible(j) && LeafStatus(e, j, 1, Flags(false, false)) != Success
    && e.safe(LeafStatus(e, j, 1, Flags(false, false)))
  }

  /** All targets before `k` failed safely. */
  ghost predicate AllFailedSafely(e: Env, k: int) { forall j :: 0 <= j < k ==> FailedSafely(e, j) }

  lemma {:induction false} MovesOnIff(e: Env, j: int)
    ensures MovesOn(e, j) <==> FailedSafely(e, j)
  {
    hide LeafStatus;
  }

  function TargetsOf(acts: seq<Act>): seq<int> {
    if acts == [] then []
    else (if acts[0].Target? then [acts[0].i] else []) + TargetsOf(acts[1..])
  }

  lemma {:induction false} TargetsConcat(a: seq<Act>, b: seq<Act>)
    ensures TargetsOf(a + b) == TargetsOf(a) + TargetsOf(b)
  {
    if a == [] { assert a + b == b; } else {
      TargetsConcat(a[1..], b);
      assert (a + b)[1..] == a[1..] + b;
    }
  }

  lemma {:induction false} NoTargets(acts: seq<Act>)
    requires forall a <- acts :: !a.Target?
    ensures TargetsOf(acts) == []
  {
    if acts != [] { assert acts[0] in acts; NoTargets(acts[1..]); }
  }

  /** What target `i` does itself: neither a gate nor an interceptor. */
  predicate OnTarget(a: Act, i: int) {
    (a.Target? || a.Attempt? || a.Send? || a.Halted? || a.Declined? || a.TargetMark?) && a.i == i
  }

  /** Without the flags a target only tries, sends and marks itself: no gate and no interceptor runs inside it. */
  lemma {:induction false} TriesAreBare(e: Env, i: int)
    ensures forall a <- TargetTries(e, i) :: OnTarget(a, i) && !a.Target?
  {
    hide LeafActs;
    LeafActsAre(e, i, 1, BARE);
  }

  function Range(from: int, to: int): seq<int>
    decreases to - from
  {
    if from >= to then [] else [from] + Range(from + 1, to)
  }

  /** The first target that does not fail safely, or the number of targets. */
  function Settles(e: Env, i: nat): (k: int)
    requires i <= e.targets
    ensures i <= k <= e.targets && (forall j :: i <= j < k ==> MovesOn(e, j)) && (k < e.targets ==> !MovesOn(e, k))
    decreases e.targets - i
  {
    if i == e.targets || !MovesOn(e, i) then i else Settles(e, i + 1)
  }

  /** Everything of TargetActs after the acts of target `i` itself. */
  function Onward(e: Env, i: nat): seq<Act>
    requires i < e.targets
  {
    var s := TargetStatus(e, i);
    if !e.eligible(i) then Finish(Error(PoolClosed, true))
    else if s == Success then (if e.shadow then [] else [MarkWrite]) + Finish(s)
    else if !MovesOn(e, i) then Finish(s)
    else if i + 1 < e.targets then TargetActs(e, i + 1)
    else BufferActs(e, s)
  }

  function Own(e: Env, i: nat): seq<Act> { [Target(i)] + if e.eligible(i) then TargetTries(e, i) else [] }

  lemma {:induction false} Split(e: Env, i: nat)
    requires i < e.targets
    ensures TargetActs(e, i) == Own(e, i) + Onward(e, i)
  {
    hide TargetTries, TargetStatus, Finish, BufferActs;
  }

  lemma {:induction false} OwnTargets(e: Env, i: nat)
    ensures TargetsOf(Own(e, i)) == [i]
  {
    TriesAreBare(e, i);
    NoTargets(if e.eligible(i) then TargetTries(e, i) else []);
    assert Own(e, i)[1..] == if e.eligible(i) then TargetTries(e, i) else [];
  }

  lemma {:induction false} TargetsFrom(e: Env, i: nat)
    requires i < e.targets
    ensures TargetsOf(TargetActs(e, i)) == Range(i, if Settles(e, i) < e.targets then Settles(e, i) + 1 else e.targets)
    decreases e.targets - i
  {
    hide TargetTries, TargetStatus, TargetActs, MovesOn, Onward, Own, Ending, TargetsOf, Wrote, EndStatus;
    Split(e, i);
    OwnTargets(e, i);
    TargetsConcat(Own(e, i), Onward(e, i));
    if MovesOn(e, i) && i + 1 < e.targets {
      OnwardMoves(e, i);
      TargetsFrom(e, i + 1);
    } else {
      OnwardEnds(e, i);
      EndingCounts(Wrote(e, i) && !e.shadow, MovesOn(e, i) && e.bufferOn, EndStatus(e, i));
      NoTargets(Onward(e, i));
      assert Range(i + 1, i + 1) == [] && Range(i, i + 1) == [i];
    }
  }

  lemma {:induction false} OnwardMoves(e: Env, i: nat)
    requires i + 1 < e.targets && MovesOn(e, i)
    ensures Onward(e, i) == TargetActs(e, i + 1)
  {
    hide TargetTries, TargetStatus, TargetActs;
  }

  function Ending(mark: bool, buffer: bool, s: Status): seq<Act>
    decreases mark
  {
    if mark then [MarkWrite] + Ending(false, buffer, s) else if buffer then [Buffer] + Finish(s) else Finish(s)
  }

  ghost predicate Reports(acts: seq<Act>, mark: bool, buffer: bool, s: Status) {
    var m := multiset(acts);
    && (forall a <- acts :: a.After? || a.Completed? || a.MarkWrite? || a.Buffer? || a.Done?)
    && m[After] == 1 && m[Completed] == 1
    && m[MarkWrite] == (if mark then 1 else 0) && m[Buffer] == (if buffer then 1 else 0)
    && |acts| > 0 && acts[|acts| - 1] == Done(s) && forall j :: 0 <= j < |acts| - 1 ==> !acts[j].Done?
  }

  lemma {:induction false} FinishReports(s: Status)
    ensures Reports(Finish(s), false, false, s)
  {
    assert multiset(Finish(s)) == multiset{After, Completed, Done(s)};
  }

  lemma {:induction false} ReportsAfter(a: Act, acts: seq<Act>, mark: bool, buffer: bool, s: Status)
    requires Reports(acts, false, buffer, s) && (if mark then a == MarkWrite else a == Buffer && !buffer)
    ensures Reports([a] + acts, mark, if mark then buffer else true, s)
  {
    assert multiset([a] + acts) == multiset{a} + multiset(acts);
    LastIsKept([a], acts);
  }

  /** An ending reports once and touches no target. */
  lemma {:induction false} EndingCounts(mark: bool, buffer: bool, s: Status)
    ensures Reports(Ending(mark, buffer, s), mark, buffer, s)
  {
    hide Reports, Finish;
    var f := Finish(s);
    FinishReports(s);
    if buffer { ReportsAfter(Buffer, f, false, false, s); }
    if mark { ReportsAfter(MarkWrite, Ending(false, buffer, s), true, buffer, s); }
  }

  /** Whether target `i`, where the run ends, was written to. */
  predicate Wrote(e: Env, i: int) { e.eligible(i) && TargetStatus(e, i) == Success }

  /** The result of a run that ends at target `i`. */
  function EndStatus(e: Env, i: nat): Status {
    if !e.eligible(i) then Error(PoolClosed, true)
    else if MovesOn(e, i) && e.bufferOn && e.bufferTakes then Error(Buffered, false)
    else TargetStatus(e, i)
  }

  lemma {:induction false} OnwardEnds(e: Env, i: nat)
    requires i < e.targets && !(MovesOn(e, i) && i + 1 < e.targets)
    ensures Onward(e, i) == Ending(Wrote(e, i) && !e.shadow, MovesOn(e, i) && e.bufferOn, EndStatus(e, i))
  {
    hide TargetTries, TargetStatus, TargetActs;
  }

  lemma {:induction false} LastIsKept(a: seq<Act>, b: seq<Act>)
    requires (forall x <- a :: !x.Done?) && |b| > 0 && b[|b| - 1].Done? && forall j :: 0 <= j < |b| - 1 ==> !b[j].Done?
    ensures var c := a + b; c[|c| - 1] == b[|b| - 1] && forall j :: 0 <= j < |c| - 1 ==> !c[j].Done?
  {
    var c := a + b;
    forall j | 0 <= j < |c| - 1 ensures !c[j].Done? { assert c[j] == if j < |a| then a[j] else b[j - |a|]; }
  }

  // ------------------------------------------------------------------ theorems

  /** The engine took the write, and it got past the gate and the before-interceptors. */
  predicate Admitted(e: Env) { e.posted && e.preGate == Success && e.before == Success }

  /** Targets are tried in order, each at most once as a target, and the next only after a failure judged safe. */
  lemma {:induction false} TriesInOrder(e: Env)
    requires Admitted(e)
    ensures var k := Settles(e, 0);
      && TargetsOf(Run(e)) == Range(0, if k < e.targets then k + 1 else e.targets)
      && AllFailedSafely(e, k) && (k < e.targets ==> !FailedSafely(e, k))
  {
    hide TargetActs, MovesOn, TargetStatus, FailedSafely;
    SettlesIs(e);
    var head := [PreGate, Route, Before];
    NoTargets(head);
    if e.targets > 0 {
      TargetsFrom(e, 0);
      TargetsConcat(head, TargetActs(e, 0));
    } else {
      NoTargets(BufferActs(e, Error(CircuitOpen, true)));
      TargetsConcat(head, BufferActs(e, Error(CircuitOpen, true)));
    }
  }

  /** How the rest of a run from target `i` ends, in numbers. */
  ghost predicate EndsOnce(e: Env, i: nat, acts: seq<Act>)
    requires i <= e.targets
  {
    var k, m := Settles(e, i), multiset(acts);
    && m[After] == 1 && m[Completed] == 1 && m[PreGate] == 0 && m[Route] == 0 && m[Before] == 0
    && m[Buffer] == (if k == e.targets && !e.shadow && e.bufferOn then 1 else 0)
    && m[MarkWrite] == (if k < e.targets && Wrote(e, k) && !e.shadow then 1 else 0)
    && |acts| > 0 && acts[|acts| - 1].Done? && forall j :: 0 <= j < |acts| - 1 ==> !acts[j].Done?
  }

  lemma {:induction false} OwnIsQuiet(e: Env, i: nat)
    ensures forall a <- Own(e, i) :: OnTarget(a, i)
    ensures var m := multiset(Own(e, i));
      && m[After] == 0 && m[Completed] == 0 && m[PreGate] == 0 && m[Route] == 0 && m[Before] == 0
      && m[Buffer] == 0 && m[MarkWrite] == 0
  {
    hide TargetTries;
    TriesAreBare(e, i);
    var own := Own(e, i);
    assert forall a <- own :: OnTarget(a, i);
    assert After !in own && Completed !in own && PreGate !in own && Route !in own && Before !in own;
    assert Buffer !in own && MarkWrite !in own;
  }

  lemma {:induction false} EndsFrom(e: Env, i: nat)
    requires i < e.targets
    ensures EndsOnce(e, i, TargetActs(e, i))
    decreases e.targets - i
  {
    hide TargetTries, TargetStatus, TargetActs, Onward, Own, Ending, EndStatus;
    Split(e, i);
    OwnIsQuiet(e, i);
    if MovesOn(e, i) && i + 1 < e.targets {
      OnwardMoves(e, i);
      EndsFrom(e, i + 1);
    } else {
      OnwardEnds(e, i);
      EndingCounts(Wrote(e, i) && !e.shadow, MovesOn(e, i) && e.bufferOn, EndStatus(e, i));
      assert Settles(e, i) == if MovesOn(e, i) then e.targets else i;
    }
    LastIsKept(Own(e, i), Onward(e, i));
  }

  /** Everything after the before-interceptors of an admitted write. */
  function Work(e: Env): seq<Act> {
    if e.targets > 0 then TargetActs(e, 0) else BufferActs(e, Error(CircuitOpen, true))
  }

  lemma {:induction false} WorkEndsOnce(e: Env)
    ensures EndsOnce(e, 0, Work(e))
  {
    hide TargetActs, TargetStatus, BufferActs, Ending, EndsOnce, Reports;
    if e.targets > 0 {
      EndsFrom(e, 0);
    } else {
      var s := BufferStatus(e, Error(CircuitOpen, true));
      EndingCounts(false, !e.shadow && e.bufferOn, s);
      NoTargetEnds(e, BufferActs(e, Error(CircuitOpen, true)), s);
    }
  }

  lemma {:induction false} NoTargetEnds(e: Env, acts: seq<Act>, s: Status)
    requires e.targets == 0 && Reports(acts, false, !e.shadow && e.bufferOn, s)
    ensures EndsOnce(e, 0, acts)
  {
    assert PreGate !in acts && Route !in acts && Before !in acts;
  }

  lemma {:induction false} BufferStatus(e: Env, last: Status) returns (s: Status)
    ensures BufferActs(e, last) == Ending(false, !e.shadow && e.bufferOn, s)
  {
    s := if !e.shadow && e.bufferOn && e.bufferTakes then Error(Buffered, false) else last;
  }

  /** A write that got into the executor passes the pre-gate once and runs the route, before-, after- and completion-
      interceptors once, whatever the retries and failovers: the targets are called without both flags. It reports
      once. */
  lemma {:induction false} OncePerOperation(e: Env)
    ensures var acts := Run(e); var m := multiset(acts);
      && m[PreGate] == Bit(e.posted) && m[Route] == m[Before] == Bit(e.posted && e.preGate == Success)
      && m[After] == Bit(Admitted(e)) && m[Completed] == Bit(e.posted && e.preGate == Success)
      && acts[|acts| - 1].Done? && (forall j :: 0 <= j < |acts| - 1 ==> !acts[j].Done?)
  {
    hide Run;
    if Admitted(e) { AdmittedOnce(e); } else { TurnedAway(e); }
  }

  lemma {:induction false} AdmittedOnce(e: Env)
    requires Admitted(e)
    ensures var acts := Run(e); var m := multiset(acts);
      && m[PreGate] == 1 && m[Route] == 1 && m[Before] == 1 && m[After] == 1 && m[Completed] == 1
      && acts[|acts| - 1].Done? && (forall j :: 0 <= j < |acts| - 1 ==> !acts[j].Done?)
  {
    hide Work, Settles, EndsOnce, Run, Finish;
    AdmittedRun(e);
    WorkEndsOnce(e);
    HeadOnce(e, Work(e));
    LastIsKept([PreGate, Route, Before], Work(e));
  }

  lemma {:induction false} TurnedAway(e: Env)
    requires !Admitted(e)
    ensures var acts := Run(e); var m := multiset(acts);
      && m[PreGate] == Bit(e.posted) && m[Route] == m[Before] == m[Completed] == Bit(e.posted && e.preGate == Success)
      && m[After] == 0
      && acts[|acts| - 1].Done? && (forall j :: 0 <= j < |acts| - 1 ==> !acts[j].Done?)
  {
    if e.posted && e.preGate == Success {
      assert multiset(Run(e)) == multiset{PreGate, Route, Before, Completed, Done(e.before)};
    }
  }

  lemma {:induction false} HeadOnce(e: Env, work: seq<Act>)
    requires EndsOnce(e, 0, work)
    ensures var m := multiset([PreGate, Route, Before] + work);
      m[PreGate] == 1 && m[Route] == 1 && m[Before] == 1 && m[After] == 1 && m[Completed] == 1
    ensures |work| > 0 && work[|work| - 1].Done? && forall j :: 0 <= j < |work| - 1 ==> !work[j].Done?
  {
    hide Settles, Wrote;
    var head := [PreGate, Route, Before];
    assert multiset(head) == multiset{PreGate, Route, Before};
    SumOf(head, work, PreGate); SumOf(head, work, Route); SumOf(head, work, Before);
    SumOf(head, work, After); SumOf(head, work, Completed);
  }

  lemma {:induction false} AdmittedRun(e: Env)
    requires Admitted(e)
    ensures Run(e) == [PreGate, Route, Before] + Work(e)
  {
    hide TargetActs, BufferActs;
  }

  /** Buffered exactly when no target is left: all of them failed safely, or there was none. */
  lemma {:induction false} BufferedExactlyWhen(e: Env)
    ensures Buffer in Run(e) <==> Admitted(e) && !e.shadow && e.bufferOn && AllFailedSafely(e, e.targets)
    ensures multiset(Run(e))[Buffer] <= 1
  {
    hide Work, TargetStatus;
    if Admitted(e) {
      WorkEndsOnce(e);
      AdmittedRun(e);
      SettlesIs(e);
      assert Buffer in Run(e) <==> multiset(Work(e))[Buffer] > 0;
    }
  }

  /** The group is marked as written exactly when, off the shadow route, the first target that did not fail safely
      succeeded. */
  lemma {:induction false} MarkedExactlyWhen(e: Env)
    ensures MarkWrite in Run(e) <==>
      Admitted(e) && !e.shadow && (exists k: nat :: k < e.targets && AllFailedSafely(e, k) && Wrote(e, k))
    ensures multiset(Run(e))[MarkWrite] <= 1
  {
    hide Work, TargetStatus;
    if Admitted(e) {
      WorkEndsOnce(e);
      AdmittedRun(e);
      SettlesIs(e);
      assert MarkWrite in Run(e) <==> multiset(Work(e))[MarkWrite] > 0;
    }
  }

  lemma {:induction false} SettlesIs(e: Env)
    ensures Settles(e, 0) == e.targets <==> AllFailedSafely(e, e.targets)
    ensures AllFailedSafely(e, Settles(e, 0))
    ensures Settles(e, 0) < e.targets ==> !FailedSafely(e, Settles(e, 0))
    ensures forall k: nat :: k < e.targets && AllFailedSafely(e, k) && Wrote(e, k) ==> k == Settles(e, 0)
  {
    hide TargetStatus, FailedSafely, MovesOn, Wrote;
    var s := Settles(e, 0);
    forall j | 0 <= j < s ensures FailedSafely(e, j) { MovesOnIff(e, j); }
    MovesOnIff(e, s);
    forall k: nat | k < e.targets && AllFailedSafely(e, k) && Wrote(e, k) ensures k == s {
      MovesOnIff(e, k);
      WroteStays(e, k);
    }
  }

  lemma {:induction false} WroteStays(e: Env, k: int)
    ensures Wrote(e, k) ==> !MovesOn(e, k)
  {
  }

  /** Success, a refusal or the buffer's answer: what the caller is told comes from the target where the run ended. */
  lemma {:induction false} ResultIs(e: Env)
    requires Admitted(e) && e.targets > 0
    ensures var k := Settles(e, 0); var last := if k < e.targets then k else e.targets - 1;
      var status := LeafStatus(e, last, 1, Flags(false, false));
      Run(e)[|Run(e)| - 1] == Done(
        if !e.eligible(last) then Error(PoolClosed, true)
        else if k == e.targets && e.bufferOn && e.bufferTakes then Error(Buffered, false)
        else status)
  {
    hide TargetActs, LeafStatus;
    ResultFrom(e, 0);
    AdmittedRun(e);
  }

  /** With no target at all the buffer is asked, and without it the circuit is reported open. */
  lemma {:induction false} NoTargetResult(e: Env)
    requires Admitted(e) && e.targets == 0
    ensures Run(e)[|Run(e)| - 1] ==
      Done(if !e.shadow && e.bufferOn && e.bufferTakes then Error(Buffered, false) else Error(CircuitOpen, true))
  {
  }

  lemma {:induction false} ResultFrom(e: Env, i: nat)
    requires i < e.targets
    ensures var k := Settles(e, i); var last := if k < e.targets then k else e.targets - 1;
      var acts := TargetActs(e, i); |acts| > 0 && acts[|acts| - 1] == Done(EndStatus(e, last))
    decreases e.targets - i
  {
    hide TargetTries, TargetStatus, TargetActs, Onward, Own, Ending, EndStatus, Wrote;
    Split(e, i);
    if MovesOn(e, i) && i + 1 < e.targets {
      OnwardMoves(e, i);
      ResultFrom(e, i + 1);
    } else {
      OnwardEnds(e, i);
      EndingCounts(Wrote(e, i) && !e.shadow, MovesOn(e, i) && e.bufferOn, EndStatus(e, i));
    }
  }

  // ------------------------------------------------------------------- attempts

  lemma {:induction false} OwnTries(e: Env, i: nat, j: int, m: int)
    ensures multiset(Own(e, i))[Attempt(j, m)] <= Bit(j == i && MayTry(e, i, 1, m, BARE))
  {
    hide LeafActs, MayTry;
    TriesAreBare(e, i);
    LeafAttempts(e, i, 1, m, BARE);
    assert j != i ==> Attempt(j, m) !in TargetTries(e, i);
  }

  lemma {:induction false} AttemptsFrom(e: Env, i: nat, j: int, m: int)
    requires i < e.targets
    ensures multiset(TargetActs(e, i))[Attempt(j, m)] <= Bit(i <= j < e.targets && MayTry(e, j, 1, m, BARE))
    decreases e.targets - i
  {
    hide TargetTries, TargetStatus, TargetActs, Onward, MovesOn, Ending, EndStatus, Wrote, Own, MayTry;
    Split(e, i);
    OwnTries(e, i, j, m);
    SumOf(Own(e, i), Onward(e, i), Attempt(j, m));
    if MovesOn(e, i) && i + 1 < e.targets {
      OnwardMoves(e, i);
      AttemptsFrom(e, i + 1, j, m);
    } else {
      OnwardEnds(e, i);
      EndingCounts(Wrote(e, i) && !e.shadow, MovesOn(e, i) && e.bufferOn, EndStatus(e, i));
      assert Attempt(j, m) !in Onward(e, i);
    }
  }

  /** Each attempt is started at most once, only up to the allowed number, and only after a retryable failure of the one
      before. */
  lemma {:induction false} RetriesAreAllowed(e: Env, j: int, m: int)
    ensures multiset(Run(e))[Attempt(j, m)] <= 1
    ensures Attempt(j, m) in Run(e) ==> Admitted(e) && 0 <= j < e.targets && MayTry(e, j, 1, m, BARE)
  {
    hide TargetActs, MayTry;
    if Admitted(e) && e.targets > 0 {
      AdmittedRun(e);
      hide Run;
      AttemptsFrom(e, 0, j, m);
      SumOf([PreGate, Route, Before], TargetActs(e, 0), Attempt(j, m));
    } else {
      NoAttempts(e, j, m);
    }
  }

  lemma {:induction false} NoAttempts(e: Env, j: int, m: int)
    requires !Admitted(e) || e.targets == 0
    ensures Attempt(j, m) !in Run(e)
  {
  }

  // ------------------------------------------------- executions and target marks

  /** How often the statement is executed on target `j`. */
  function SendsTo(acts: seq<Act>, j: int): nat {
    if acts == [] then 0 else Bit(acts[0].Send? && acts[0].i == j) + SendsTo(acts[1..], j)
  }

  lemma {:induction false} SendsConcat(a: seq<Act>, b: seq<Act>, j: int)
    ensures SendsTo(a + b, j) == SendsTo(a, j) + SendsTo(b, j)
  {
    if a == [] { assert a + b == b; } else {
      SendsConcat(a[1..], b, j);
      assert (a + b)[1..] == a[1..] + b;
    }
  }

  lemma {:induction false} SendsOn(acts: seq<Act>, i: int, j: int)
    requires forall a <- acts :: a.Send? ==> a.i == i
    ensures SendsTo(acts, j) == if i == j then Times(acts, Sends) else 0
  {
    if acts != [] {
      assert acts[0] in acts && forall a <- acts[1..] :: a in acts;
      SendsOn(acts[1..], i, j);
    }
  }

  lemma {:induction false} OwnSends(e: Env, i: nat, j: int)
    ensures SendsTo(Own(e, i), j) <= if i == j then Attempts(e, i) else 0
  {
    hide LeafActs, Attempts, Times;
    var tries := if e.eligible(i) then TargetTries(e, i) else [];
    SendsConcat([Target(i)], tries, j);
    assert SendsTo([Target(i)], j) == 0;
    TriesAreBare(e, i);
    SendsOn(TargetTries(e, i), i, j);
    InterceptorsPerAttempt(e, i, 1, BARE);
    TriesBounded(e, i, 1, BARE);
    OneAtLeast(e, i);
  }

  lemma {:induction false} OneAtLeast(e: Env, i: int)
    ensures Attempts(e, i) >= 1
  {
  }

  lemma {:induction false} SendsFrom(e: Env, i: nat, j: int)
    requires i < e.targets
    ensures SendsTo(TargetActs(e, i), j) <= if i <= j then Attempts(e, j) else 0
    decreases e.targets - i
  {
    hide TargetTries, TargetStatus, TargetActs, Onward, MovesOn, Ending, EndStatus, Wrote, Own, Attempts, SendsTo;
    Split(e, i);
    OwnSends(e, i, j);
    SendsConcat(Own(e, i), Onward(e, i), j);
    if MovesOn(e, i) && i + 1 < e.targets {
      OnwardMoves(e, i);
      SendsFrom(e, i + 1, j);
    } else {
      OnwardEnds(e, i);
      EndingCounts(Wrote(e, i) && !e.shadow, MovesOn(e, i) && e.bufferOn, EndStatus(e, i));
      NoSends(Onward(e, i), j);
      OneAtLeast(e, j);
    }
  }

  lemma {:induction false} NoSends(acts: seq<Act>, j: int)
    requires forall a <- acts :: !a.Send?
    ensures SendsTo(acts, j) == 0
  {
    if acts != [] { assert acts[0] in acts && forall a <- acts[1..] :: a in acts; NoSends(acts[1..], j); }
  }

  /** A write is executed on one target at most as often as it may be tried there: a non-idempotent write
      never twice. */
  lemma {:induction false} ExecutedAtMost(e: Env, j: int)
    ensures SendsTo(Run(e), j) <= Attempts(e, j)
    ensures e.idempotency == NonIdempotent ==> SendsTo(Run(e), j) <= 1
  {
    hide TargetActs, SendsTo;
    OneAtLeast(e, j);
    if Admitted(e) && e.targets > 0 {
      SendsFrom(e, 0, j);
      AdmittedRun(e);
      SendsConcat([PreGate, Route, Before], TargetActs(e, 0), j);
      NoSends([PreGate, Route, Before], j);
    } else {
      NoSends(Run(e), j);
    }
  }

  /** A non-idempotent write is never started twice on one target. */
  lemma {:induction false} NonIdempotentOnce(e: Env, j: int, m: int)
    requires e.idempotency == NonIdempotent && Attempt(j, m) in Run(e)
    ensures m == 1
  {
    hide Run;
    RetriesAreAllowed(e, j, m);
  }

  lemma {:induction false} OwnMark(e: Env, i: nat, k: int)
    ensures multiset(Own(e, i))[TargetMark(k)] == Bit(k == i && Wrote(e, i))
  {
    hide LeafActs, LeafStatus, Times;
    TriesAreBare(e, i);
    MarksCounted(TargetTries(e, i), i);
    MarkedOnSuccess(e, i, 1, BARE);
    assert k != i ==> TargetMark(k) !in TargetTries(e, i);
  }

  lemma {:induction false} MarksFrom(e: Env, i: nat, k: int)
    requires i < e.targets
    ensures multiset(TargetActs(e, i))[TargetMark(k)] == Bit(k == Settles(e, i) && k < e.targets && Wrote(e, k))
    decreases e.targets - i
  {
    hide TargetTries, TargetStatus, TargetActs, Onward, Ending, EndStatus, Own;
    Split(e, i);
    OwnMark(e, i, k);
    SumOf(Own(e, i), Onward(e, i), TargetMark(k));
    if MovesOn(e, i) && i + 1 < e.targets {
      OnwardMoves(e, i);
      MarksFrom(e, i + 1, k);
    } else {
      OnwardEnds(e, i);
      EndingCounts(Wrote(e, i) && !e.shadow, MovesOn(e, i) && e.bufferOn, EndStatus(e, i));
      assert TargetMark(k) !in Onward(e, i);
    }
  }

  /** Target `k` marks itself exactly when it is the first that did not fail safely and it succeeded, on the shadow
      route as well; it does so once. */
  lemma {:induction false} TargetMarkedExactlyWhen(e: Env, k: nat)
    ensures multiset(Run(e))[TargetMark(k)]
         == Bit(Admitted(e) && k < e.targets && AllFailedSafely(e, k) && Wrote(e, k))
  {
    hide TargetActs, TargetStatus, FailedSafely, Wrote, MovesOn;
    if Admitted(e) && e.targets > 0 {
      MarksFrom(e, 0, k);
      AdmittedRun(e);
      hide Run;
      SettlesIs(e);
      SumOf([PreGate, Route, Before], TargetActs(e, 0), TargetMark(k));
    } else {
      assert TargetMark(k) !in Run(e);
    }
  }
}

/**
  A write on one data source: one attempt, from the executor's queue over gate,
  circuit breaker, pool, native driver or blocking session to its result, and
  the retries around it. The same code serves a stand-alone source and a target
  of a group; two flags tell it which gate and interceptor calls are its own.
  What the outside answers comes from an arbitrary environment; the run is the
  list of what the engine does. Interceptors are registered and not re-entered.
*/
module LeafWrite {
  import opened Wrappers

  datatype Code = CircuitOpen | Overloaded | PoolClosed | Buffered | NotSupported | Other(n: int)

  datatype Status = Success | Error(code: Code, retryable: bool)

  datatype Idempotency = Unspecified | Idempotent | NonIdempotent

  /** What one attempt meets on its way, whether or not it gets there. */
  datatype Answer = Answer(
    posted: bool,             // the executor took the attempt
    gate: Status,             // preGate
    breaker: Status,          // beforeAttempt
    stopped: Status,          // the operation, after the borrow
    borrow: Status,           // the pool
    native: bool,             // the connection executes asynchronously
    before: Status,           // the before-interceptors of the native path
    taken: bool,              // the native driver took the statement
    fallbackAllowed: bool,
    audit: Status,            // the session's audit
    sessionBefore: Status,    // the before-interceptors of the session
    sessionStop: Status,      // the operation, just before the session executes the statement
    result: Status)           // what executing the statement came to

  /** `reply(i, n)` is what attempt `n` on target `i` meets, None if it could not start;
      `stop(i, n)` is the operation's status just before that attempt. */
  datatype Env = Env(
    posted: bool, preGate: Status, before: Status, shadow: bool, targets: nat,
    idempotency: Idempotency, retryWrites: int -> bool, maxAttempts: int -> int,
    eligible: int -> bool, stop: (int, int) -> Status, reply: (int, int) -> Option<Answer>,
    safe: Status -> bool, bufferOn: bool, bufferTakes: bool)

  datatype Act =
    | PreGate | Route | Before | After | Completed
    | Target(i: int) | Attempt(i: int, n: int)
    | Declined(i: int, n: int)   // the native driver did not take the statement
    | Send(i: int, n: int)       // the statement is executed
    | Halted(i: int, n: int)     // the session found the operation stopped and did not execute it
    | TargetMark(i: int)         // markWrite on the target
    | MarkWrite                  // markWrite on the group
    | Buffer
    | Done(result: Status)

  /** applyPreGate and runInterceptors. */
  datatype Flags = Flags(gate: bool, interceptors: bool)

  // ------------------------------------------------------------ executeOne

  predicate Rejected(a: Answer, f: Flags) {
    (f.gate && a.gate != Success) || a.breaker != Success || a.stopped != Success || a.borrow != Success
  }

  function Mark(a: Answer, i: int): seq<Act> { if a.result == Success then [TargetMark(i)] else [] }

  /** The native callback. */
  function NativeActs(a: Answer, i: int, n: int, f: Flags): seq<Act> {
    [Send(i, n)] + (Mark(a, i) + if f.interceptors then [After, Completed] else [])
  }

  /** The session executes the statement unless the operation has been stopped meanwhile. */
  function Executed(a: Answer, i: int, n: int): seq<Act> {
    if a.sessionStop == Success then [Send(i, n)] else [Halted(i, n)]
  }

  function SessionMark(a: Answer, i: int): seq<Act> { if a.sessionStop == Success then Mark(a, i) else [] }

  /** The blocking session; with interceptors it audits, routes and calls them itself. */
  function SessionActs(a: Answer, i: int, n: int, f: Flags): seq<Act> {
    if !a.fallbackAllowed then []
    else if !f.interceptors then Executed(a, i, n) + SessionMark(a, i)
    else if a.audit != Success then []
    else if a.sessionBefore != Success then [Route, Before, Completed]
    else [Route, Before] + (Executed(a, i, n) + ([After, Completed] + SessionMark(a, i)))
  }

  function BorrowedActs(a: Answer, i: int, n: int, f: Flags): seq<Act> {
    if !a.native then SessionActs(a, i, n, f)
    else if f.interceptors && a.before != Success then [Route, Before, Completed]
    else (if f.interceptors then [Route, Before] else []) +
         if a.taken then NativeActs(a, i, n, f) else [Declined(i, n)] + SessionActs(a, i, n, f)
  }

  function OneActs(a: Answer, i: int, n: int, f: Flags): seq<Act> {
    if !a.posted then []
    else (if f.gate then [PreGate] else []) + if Rejected(a, f) then [] else BorrowedActs(a, i, n, f)
  }

  function SessionStatus(a: Answer, f: Flags): Status {
    if !a.fallbackAllowed then Error(NotSupported, false)
    else if f.interceptors && a.audit != Success then a.audit
    else if f.interceptors && a.sessionBefore != Success then a.sessionBefore
    else if a.sessionStop != Success then a.sessionStop
    else a.result
  }

  function BorrowedStatus(a: Answer, f: Flags): Status {
    if a.native && f.interceptors && a.before != Success then a.before
    else if a.native && a.taken then a.result
    else SessionStatus(a, f)
  }

  function OneStatus(a: Answer, f: Flags): Status {
    if !a.posted then Error(Overloaded, true)
    else if f.gate && a.gate != Success then a.gate
    else if a.breaker != Success then a.breaker
    else if a.stopped != Success then a.stopped
    else if a.borrow != Success then a.borrow
    else BorrowedStatus(a, f)
  }

  // ----------------------------------------------------------- executeLeaf

  function Attempts(e: Env, i: int): int {
    if e.idempotency == Idempotent || (e.idempotency != NonIdempotent && e.retryWrites(i))
    then (if e.maxAttempts(i) > 1 then e.maxAttempts(i) else 1)
    else 1
  }

  predicate Retries(e: Env, i: int, n: int, s: Status) {
    s.Error? && s.retryable && s.code != CircuitOpen && s.code != Overloaded && n < Attempts(e, i)
  }

  /** Attempt `n` runs. */
  predicate Runs(e: Env, i: int, n: int) { e.stop(i, n) == Success && e.reply(i, n).Some? }

  /** The flags of attempt `n`: a retry never passes the gate again. */
  function FlagsOf(f: Flags, n: int): Flags { Flags(f.gate && n == 1, f.interceptors) }

  function StatusOf(e: Env, i: int, n: int, f: Flags): Status
    requires e.reply(i, n).Some?
  {
    OneStatus(e.reply(i, n).value, FlagsOf(f, n))
  }

  function LeafActs(e: Env, i: int, n: int, f: Flags): seq<Act>
    decreases Attempts(e, i) - n
  {
    if !Runs(e, i, n) then []
    else [Attempt(i, n)] + OneActs(e.reply(i, n).value, i, n, FlagsOf(f, n)) +
         if Retries(e, i, n, StatusOf(e, i, n, f)) then LeafActs(e, i, n + 1, f) else []
  }

  function LeafStatus(e: Env, i: int, n: int, f: Flags): Status
    decreases Attempts(e, i) - n
  {
    if e.stop(i, n) != Success then e.stop(i, n)
    else if e.reply(i, n).None? then Error(PoolClosed, true)
    else if Retries(e, i, n, StatusOf(e, i, n, f)) then LeafStatus(e, i, n + 1, f)
    else StatusOf(e, i, n, f)
  }

  // ------------------------------------------------------------- counting

  datatype Kind =
    | Gates | Routes | Befores | Afters | Completions | Tries | Sends | Halts | Declines | TargetMarks | Others

  function KindOf(x: Act): Kind {
    match x
    case PreGate => Gates
    case Route => Routes
    case Before => Befores
    case After => Afters
    case Completed => Completions
    case Attempt(_, _) => Tries
    case Send(_, _) => Sends
    case Halted(_, _) => Halts
    case Declined(_, _) => Declines
    case TargetMark(_) => TargetMarks
    case _ => Others
  }

  /** How many acts of a kind there are. */
  function Times(acts: seq<Act>, k: Kind): nat {
    if acts == [] then 0 else Bit(KindOf(acts[0]) == k) + Times(acts[1..], k)
  }

  function Bit(b: bool): nat { if b then 1 else 0 }

  lemma {:induction false} TimesConcat(a: seq<Act>, b: seq<Act>, k: Kind)
    ensures Times(a + b, k) == Times(a, k) + Times(b, k)
  {
    if a == [] { assert a + b == b; } else {
      TimesConcat(a[1..], b, k);
      assert (a + b)[1..] == a[1..] + b;
    }
  }

  lemma {:induction false} TimesOne(x: Act, k: Kind)
    ensures Times([x], k) == Bit(KindOf(x) == k) && Times([], k) == 0
  {
  }

  lemma {:induction false} TimesTwo(x: Act, y: Act, k: Kind)
    ensures Times([x, y], k) == Bit(KindOf(x) == k) + Bit(KindOf(y) == k)
  {
    assert [x, y] == [x] + [y];
    TimesConcat([x], [y], k);
    TimesOne(x, k);
    TimesOne(y, k);
  }

  lemma {:induction false} MarkTimes(a: Answer, i: int, k: Kind)
    ensures Times(Mark(a, i), k) == Bit(a.result == Success && k == TargetMarks)
  {
    TimesOne(TargetMark(i), k);
  }

  lemma {:induction false} NativeTimes(a: Answer, i: int, n: int, f: Flags, k: Kind)
    ensures Times(NativeActs(a, i, n, f), k) ==
      Bit(k == Sends) + Bit(a.result == Success && k == TargetMarks)
        + Bit(f.interceptors && (k == Afters || k == Completions))
  {
    hide Times;
    var end := if f.interceptors then [After, Completed] else [];
    TimesConcat([Send(i, n)], Mark(a, i) + end, k);
    TimesConcat(Mark(a, i), end, k);
    TimesOne(Send(i, n), k);
    TimesTwo(After, Completed, k);
    MarkTimes(a, i, k);
  }

  /** The session gets to the statement. */
  predicate SessionReaches(a: Answer, f: Flags) {
    a.fallbackAllowed && (f.interceptors ==> a.audit == Success && a.sessionBefore == Success)
  }

  /** The session executes the statement. */
  predicate SessionSends(a: Answer, f: Flags) { SessionReaches(a, f) && a.sessionStop == Success }

  /** The session stops before it. */
  predicate SessionHalts(a: Answer, f: Flags) { SessionReaches(a, f) && a.sessionStop != Success }

  /** The session calls interceptors. */
  predicate SessionCalls(a: Answer, f: Flags) { a.fallbackAllowed && f.interceptors && a.audit == Success }

  lemma {:induction false} ExecutedTimes(a: Answer, i: int, n: int, k: Kind)
    ensures Times(Executed(a, i, n), k) == Bit(k == if a.sessionStop == Success then Sends else Halts)
    ensures Times(SessionMark(a, i), k) == Bit(a.sessionStop == Success && a.result == Success && k == TargetMarks)
  {
    TimesOne(Send(i, n), k);
    TimesOne(Halted(i, n), k);
    MarkTimes(a, i, k);
  }

  lemma {:induction false} SessionTimes(a: Answer, i: int, n: int, f: Flags, k: Kind)
    ensures Times(SessionActs(a, i, n, f), k) ==
      Bit(SessionCalls(a, f) && (k == Routes || k == Befores || k == Completions))
      + Bit(SessionReaches(a, f) && f.interceptors && k == Afters)
      + Bit(SessionSends(a, f) && k == Sends) + Bit(SessionHalts(a, f) && k == Halts)
      + Bit(SessionSends(a, f) && a.result == Success && k == TargetMarks)
  {
    hide Times, Executed, SessionMark;
    TimesTwo(Route, Before, k);
    TimesTwo(After, Completed, k);
    TimesOne(Completed, k);
    ExecutedTimes(a, i, n, k);
    if SessionReaches(a, f) {
      var mark := SessionMark(a, i);
      if f.interceptors {
        var end := [After, Completed] + mark;
        TimesConcat([After, Completed], mark, k);
        TimesConcat(Executed(a, i, n), end, k);
        TimesConcat([Route, Before], Executed(a, i, n) + end, k);
      } else {
        TimesConcat(Executed(a, i, n), mark, k);
      }
    } else if SessionCalls(a, f) {
      TimesConcat([Route, Before], [Completed], k);
      assert [Route, Before] + [Completed] == [Route, Before, Completed];
    }
  }

  /** The native path calls its route and before-interceptors; it executes the statement; it declines. */
  predicate NativeCalls(a: Answer, f: Flags) { a.native && f.interceptors }

  predicate NativeSends(a: Answer, f: Flags) { a.native && a.taken && (f.interceptors ==> a.before == Success) }

  predicate NativeDeclines(a: Answer, f: Flags) { a.native && !a.taken && (f.interceptors ==> a.before == Success) }

  predicate UsesSession(a: Answer, f: Flags) { !a.native || NativeDeclines(a, f) }

  lemma {:induction false} BorrowedTimes(a: Answer, i: int, n: int, f: Flags, k: Kind)
    ensures Times(BorrowedActs(a, i, n, f), k) ==
      Bit(NativeCalls(a, f) && (k == Routes || k == Befores))
      + Bit(NativeCalls(a, f) && a.before != Success && k == Completions)
      + Bit(NativeDeclines(a, f) && k == Declines)
      + (if NativeSends(a, f) then Times(NativeActs(a, i, n, f), k) else 0)
      + (if UsesSession(a, f) then Times(SessionActs(a, i, n, f), k) else 0)
  {
    hide Times, NativeActs, SessionActs;
    TimesTwo(Route, Before, k);
    TimesOne(Completed, k);
    TimesOne(Declined(i, n), k);
    if a.native {
      if f.interceptors && a.before != Success {
        TimesConcat([Route, Before], [Completed], k);
        assert [Route, Before] + [Completed] == [Route, Before, Completed];
      } else {
        var head := if f.interceptors then [Route, Before] else [];
        var rest := if a.taken then NativeActs(a, i, n, f) else [Declined(i, n)] + SessionActs(a, i, n, f);
        TimesConcat(head, rest, k);
        TimesConcat([Declined(i, n)], SessionActs(a, i, n, f), k);
      }
    }
  }

  /** The attempt gets as far as a connection. */
  predicate Connects(a: Answer, f: Flags) { a.posted && !Rejected(a, f) }

  /** The attempt executes its statement. */
  predicate Executes(a: Answer, f: Flags) {
    Connects(a, f) && (NativeSends(a, f) || (UsesSession(a, f) && SessionSends(a, f)))
  }

  /** What one attempt does, whatever it meets, in numbers. */
  lemma {:induction false} OneTimes(a: Answer, i: int, n: int, f: Flags, k: Kind)
    ensures Times(OneActs(a, i, n, f), k) ==
      Bit(a.posted && f.gate && k == Gates) + (if Connects(a, f) then Times(BorrowedActs(a, i, n, f), k) else 0)
  {
    hide Times, BorrowedActs;
    TimesOne(PreGate, k);
    if a.posted {
      var head := if f.gate then [PreGate] else [];
      TimesConcat(head, if Rejected(a, f) then [] else BorrowedActs(a, i, n, f), k);
    }
  }

  /** One attempt: it passes the gate if that is asked for and the executor took it. It executes its statement at most
      once. The after-interceptors run when it does, and when the session finds the operation stopped instead. Each
      round of before-interceptors is completed, except the one that precedes a native driver's refusal. The target is
      marked exactly on success. */
  lemma {:induction false} OneAttempt(a: Answer, i: int, n: int, f: Flags)
    ensures var acts := OneActs(a, i, n, f);
      && Times(acts, Gates) == Bit(a.posted && f.gate)
      && Times(acts, Sends) == Bit(Executes(a, f)) && Times(acts, Sends) + Times(acts, Halts) <= 1
      && Times(acts, Declines) <= 1
      && Times(acts, TargetMarks) == Bit(OneStatus(a, f) == Success)
      && Times(acts, Afters) == (if f.interceptors then Times(acts, Sends) + Times(acts, Halts) else 0)
      && Times(acts, Befores) == Times(acts, Routes)
      && Times(acts, Befores) == (if f.interceptors then Times(acts, Completions) + Times(acts, Declines) else 0)
      && Times(acts, Completions) <= Bit(f.interceptors) && Times(acts, Tries) == 0
  {
    hide Times, OneActs, BorrowedActs, NativeActs, SessionActs;
    OneKind(a, i, n, f, Gates); OneKind(a, i, n, f, Sends); OneKind(a, i, n, f, Declines);
    OneKind(a, i, n, f, TargetMarks); OneKind(a, i, n, f, Afters); OneKind(a, i, n, f, Befores);
    OneKind(a, i, n, f, Routes); OneKind(a, i, n, f, Completions); OneKind(a, i, n, f, Tries);
    OneKind(a, i, n, f, Halts);
  }

  lemma {:induction false} OneKind(a: Answer, i: int, n: int, f: Flags, k: Kind)
    ensures Times(OneActs(a, i, n, f), k) ==
      Bit(a.posted && f.gate && k == Gates)
      + (if !Connects(a, f) then 0 else
           Bit(NativeCalls(a, f) && (k == Routes || k == Befores))
           + Bit(NativeCalls(a, f) && a.before != Success && k == Completions)
           + Bit(NativeDeclines(a, f) && k == Declines)
           + Bit(NativeSends(a, f) && (k == Sends || (f.interceptors && (k == Afters || k == Completions))))
           + Bit(UsesSession(a, f) && SessionCalls(a, f) && (k == Routes || k == Befores || k == Completions))
           + Bit(UsesSession(a, f) && SessionReaches(a, f) && f.interceptors && k == Afters)
           + Bit(UsesSession(a, f) && SessionSends(a, f) && k == Sends)
           + Bit(UsesSession(a, f) && SessionHalts(a, f) && k == Halts)
           + Bit(Executes(a, f) && a.result == Success && k == TargetMarks))
  {
    hide Times, OneActs, BorrowedActs, NativeActs, SessionActs, Connects;
    OneTimes(a, i, n, f, k);
    BorrowedTimes(a, i, n, f, k);
    NativeTimes(a, i, n, f, k);
    SessionTimes(a, i, n, f, k);
  }

  // -------------------------------------------------------- all the attempts

  /** The acts of attempt `n`, its start included. */
  function TryActs(e: Env, i: int, n: int, f: Flags): seq<Act>
    requires Runs(e, i, n)
  {
    [Attempt(i, n)] + OneActs(e.reply(i, n).value, i, n, FlagsOf(f, n))
  }

  /** One attempt after the other; the next one only after a retryable failure. */
  lemma {:induction false} LeafSplits(e: Env, i: int, n: int, f: Flags, k: Kind)
    requires Runs(e, i, n)
    ensures Times(LeafActs(e, i, n, f), k) == Times(TryActs(e, i, n, f), k) +
      if Retries(e, i, n, StatusOf(e, i, n, f)) then Times(LeafActs(e, i, n + 1, f), k) else 0
  {
    hide Times, OneActs, OneStatus;
    var rest := if Retries(e, i, n, StatusOf(e, i, n, f)) then LeafActs(e, i, n + 1, f) else [];
    TimesConcat(TryActs(e, i, n, f), rest, k);
    TimesOne(PreGate, k);
  }

  lemma {:induction false} TryTimes(e: Env, i: int, n: int, f: Flags, k: Kind)
    requires Runs(e, i, n)
    ensures Times(TryActs(e, i, n, f), k) ==
      Bit(k == Tries) + Times(OneActs(e.reply(i, n).value, i, n, FlagsOf(f, n)), k)
  {
    hide Times, OneActs;
    TimesConcat([Attempt(i, n)], OneActs(e.reply(i, n).value, i, n, FlagsOf(f, n)), k);
    TimesOne(Attempt(i, n), k);
  }

  lemma {:induction false} LeafStep(e: Env, i: int, n: int, f: Flags, k: Kind)
    ensures Times(LeafActs(e, i, n, f), k) ==
      if !Runs(e, i, n) then 0 else
        Bit(k == Tries) + Times(OneActs(e.reply(i, n).value, i, n, FlagsOf(f, n)), k) +
        if Retries(e, i, n, StatusOf(e, i, n, f)) then Times(LeafActs(e, i, n + 1, f), k) else 0
  {
    hide OneActs, OneStatus;
    if Runs(e, i, n) {
      LeafSplits(e, i, n, f, k);
      TryTimes(e, i, n, f, k);
    }
  }

  /** The gate of a leaf is passed once, by its first attempt, if that is asked for; no retry passes it again. */
  lemma {:induction false} GateOnce(e: Env, i: int, n: int, f: Flags)
    requires n >= 1
    ensures Times(LeafActs(e, i, n, f), Gates)
         == Bit(f.gate && n == 1 && Runs(e, i, 1) && e.reply(i, 1).value.posted)
    decreases Attempts(e, i) - n
  {
    hide LeafActs, OneActs, OneStatus, Times;
    LeafStep(e, i, n, f, Gates);
    if Runs(e, i, n) {
      OneAttempt(e.reply(i, n).value, i, n, FlagsOf(f, n));
      if Retries(e, i, n, StatusOf(e, i, n, f)) { GateOnce(e, i, n + 1, f); }
    }
  }

  /** Interceptors follow the attempts: with the flag the after-interceptors run once for each statement executed or
      halted by its session, so a retried write runs them again; without the flag none runs at all. */
  lemma {:induction false} InterceptorsPerAttempt(e: Env, i: int, n: int, f: Flags)
    ensures var acts := LeafActs(e, i, n, f);
      && Times(acts, Afters) == (if f.interceptors then Times(acts, Sends) + Times(acts, Halts) else 0)
      && Times(acts, Befores) == Times(acts, Routes)
      && Times(acts, Befores) == (if f.interceptors then Times(acts, Completions) + Times(acts, Declines) else 0)
      && Times(acts, Completions) <= (if f.interceptors then Times(acts, Tries) else 0)
      && Times(acts, Sends) + Times(acts, Halts) <= Times(acts, Tries) && Times(acts, Declines) <= Times(acts, Tries)
    decreases Attempts(e, i) - n
  {
    hide LeafActs, OneActs, OneStatus, Times, Executes;
    LeafStep(e, i, n, f, Afters); LeafStep(e, i, n, f, Befores); LeafStep(e, i, n, f, Routes);
    LeafStep(e, i, n, f, Completions); LeafStep(e, i, n, f, Sends); LeafStep(e, i, n, f, Declines);
    LeafStep(e, i, n, f, Tries); LeafStep(e, i, n, f, Halts);
    if Runs(e, i, n) {
      OneAttempt(e.reply(i, n).value, i, n, FlagsOf(f, n));
      if Retries(e, i, n, StatusOf(e, i, n, f)) { InterceptorsPerAttempt(e, i, n + 1, f); }
    }
  }

  /** The target is marked exactly when the leaf succeeds, and then once: also when it serves a shadow route. */
  lemma {:induction false} MarkedOnSuccess(e: Env, i: int, n: int, f: Flags)
    ensures Times(LeafActs(e, i, n, f), TargetMarks) == Bit(LeafStatus(e, i, n, f) == Success)
    decreases Attempts(e, i) - n
  {
    hide LeafActs, OneActs, OneStatus, Times;
    LeafStep(e, i, n, f, TargetMarks);
    if Runs(e, i, n) {
      OneAttempt(e.reply(i, n).value, i, n, FlagsOf(f, n));
      if Retries(e, i, n, StatusOf(e, i, n, f)) { MarkedOnSuccess(e, i, n + 1, f); }
    }
  }

  lemma {:induction false} TriesBounded(e: Env, i: int, n: int, f: Flags)
    ensures Times(LeafActs(e, i, n, f), Tries) <= (if n < Attempts(e, i) then Attempts(e, i) - n + 1 else 1)
    decreases Attempts(e, i) - n
  {
    hide LeafActs, OneActs, OneStatus, Times, Executes;
    LeafStep(e, i, n, f, Tries);
    if Runs(e, i, n) {
      OneAttempt(e.reply(i, n).value, i, n, FlagsOf(f, n));
      if Retries(e, i, n, StatusOf(e, i, n, f)) { TriesBounded(e, i, n + 1, f); }
    }
  }

  lemma {:induction false} MarksCounted(acts: seq<Act>, i: int)
    requires forall x <- acts :: x.TargetMark? ==> x == TargetMark(i)
    ensures Times(acts, TargetMarks) == multiset(acts)[TargetMark(i)]
  {
    if acts != [] {
      assert acts[0] in acts;
      MarksCounted(acts[1..], i);
      assert acts == [acts[0]] + acts[1..];
    }
  }

  /** A write on a source of its own, with gate and interceptors: what happens how often, exactly. */
  lemma {:induction false} AloneCounts(e: Env, i: int)
    ensures var acts := LeafActs(e, i, 1, Flags(true, true));
      && Times(acts, Gates) == Bit(Runs(e, i, 1) && e.reply(i, 1).value.posted)
      && Times(acts, Afters) == Times(acts, Sends) + Times(acts, Halts)
      && Times(acts, Befores) == Times(acts, Completions) + Times(acts, Declines)
      && Times(acts, TargetMarks) == Bit(LeafStatus(e, i, 1, Flags(true, true)) == Success)
  {
    hide LeafActs, LeafStatus, Times;
    GateOnce(e, i, 1, Flags(true, true));
    InterceptorsPerAttempt(e, i, 1, Flags(true, true));
    MarkedOnSuccess(e, i, 1, Flags(true, true));
  }

  function Native(taken: bool, result: Status): Answer {
    Answer(true, Success, Success, Success, Success, true, Success, taken, true, Success, Success, Success, result)
  }

  /** One retry on a source of its own: the gate once, the interceptors twice. */
  lemma {:induction false} RetryRunsInterceptorsAgain(e: Env)
    requires e.idempotency == Idempotent && e.maxAttempts(0) == 2 && e.stop(0, 1) == Success && e.stop(0, 2) == Success
    requires e.reply(0, 1) == Some(Native(true, Error(Other(0), true))) && e.reply(0, 2) == Some(Native(true, Success))
    ensures var acts := LeafActs(e, 0, 1, Flags(true, true));
      Times(acts, Gates) == 1 && Times(acts, Befores) == 2 && Times(acts, Afters) == 2 && Times(acts, Completions) == 2
  {
    hide LeafActs, Times, OneActs;
    var f := Flags(true, true);
    GateOnce(e, 0, 1, f);
    InterceptorsPerAttempt(e, 0, 1, f);
    TwoAttempts(e, Sends); TwoAttempts(e, Halts); TwoAttempts(e, Declines); TwoAttempts(e, Completions);
    OneKind(e.reply(0, 1).value, 0, 1, f, Completions); OneKind(e.reply(0, 2).value, 0, 2, FlagsOf(f, 2), Completions);
    OneKind(e.reply(0, 1).value, 0, 1, f, Sends); OneKind(e.reply(0, 2).value, 0, 2, FlagsOf(f, 2), Sends);
    OneKind(e.reply(0, 1).value, 0, 1, f, Halts); OneKind(e.reply(0, 2).value, 0, 2, FlagsOf(f, 2), Halts);
    OneKind(e.reply(0, 1).value, 0, 1, f, Declines); OneKind(e.reply(0, 2).value, 0, 2, FlagsOf(f, 2), Declines);
  }

  lemma {:induction false} TwoAttempts(e: Env, k: Kind)
    requires e.idempotency == Idempotent && e.maxAttempts(0) == 2 && e.stop(0, 1) == Success && e.stop(0, 2) == Success
    requires e.reply(0, 1) == Some(Native(true, Error(Other(0), true))) && e.reply(0, 2) == Some(Native(true, Success))
    ensures var f := Flags(true, true);
      Times(LeafActs(e, 0, 1, f), k) == 2 * Bit(k == Tries)
        + Times(OneActs(e.reply(0, 1).value, 0, 1, f), k) + Times(OneActs(e.reply(0, 2).value, 0, 2, FlagsOf(f, 2)), k)
  {
    hide LeafActs, Times, OneActs;
    LeafStep(e, 0, 1, Flags(true, true), k);
    LeafStep(e, 0, 2, Flags(true, true), k);
  }

  /** A native driver that declines: one attempt, one execution, but the before-interceptors ran twice. */
  lemma {:induction false} DeclineRunsBeforeTwice(i: int, n: int)
    ensures var acts := OneActs(Native(false, Success), i, n, Flags(false, true));
      && Times(acts, Befores) == 2 && Times(acts, Completions) == 1 && Times(acts, Afters) == 1
      && Times(acts, Sends) == 1
  {
    hide OneActs, Times;
    var a, f := Native(false, Success), Flags(false, true);
    OneKind(a, i, n, f, Befores); OneKind(a, i, n, f, Completions); OneKind(a, i, n, f, Afters);
    OneKind(a, i, n, f, Sends);
  }

  // -------------------------------------------------------------- which acts

  /** Acts that attempt `n` on target `i` may do under the flags. */
  predicate Allowed(x: Act, i: int, n: int, f: Flags) {
    || x == Send(i, n) || x == Halted(i, n) || x == Declined(i, n) || x == TargetMark(i)
    || (f.gate && x.PreGate?)
    || (f.interceptors && (x.Route? || x.Before? || x.After? || x.Completed?))
  }

  lemma {:induction false} SessionActsAre(a: Answer, i: int, n: int, f: Flags)
    ensures forall x <- SessionActs(a, i, n, f) :: Allowed(x, i, n, f)
  {
  }

  lemma {:induction false} NativeActsAre(a: Answer, i: int, n: int, f: Flags)
    ensures forall x <- NativeActs(a, i, n, f) :: Allowed(x, i, n, f)
  {
  }

  lemma {:induction false} OneActsAre(a: Answer, i: int, n: int, f: Flags)
    ensures forall x <- OneActs(a, i, n, f) :: Allowed(x, i, n, f)
  {
    hide SessionActs, NativeActs;
    SessionActsAre(a, i, n, f);
    NativeActsAre(a, i, n, f);
  }

  /** A leaf does nothing but try; the gate and the interceptors are touched only through the flags. */
  lemma {:induction false} LeafActsAre(e: Env, i: int, n: int, f: Flags)
    ensures forall x <- LeafActs(e, i, n, f) ::
      || ((x.Attempt? || x.Send? || x.Halted? || x.Declined?) && x.i == i && x.n >= n)
      || x == TargetMark(i)
      || (f.gate && x.PreGate?)
      || (f.interceptors && (x.Route? || x.Before? || x.After? || x.Completed?))
    decreases Attempts(e, i) - n
  {
    hide OneActs, OneStatus;
    if Runs(e, i, n) {
      OneActsAre(e.reply(i, n).value, i, n, FlagsOf(f, n));
      if Retries(e, i, n, StatusOf(e, i, n, f)) { LeafActsAre(e, i, n + 1, f); }
    }
  }

  /** The caller allows the write to be repeated on target `i`. */
  predicate Repeatable(e: Env, i: int) {
    e.idempotency == Idempotent || (e.idempotency == Unspecified && e.retryWrites(i))
  }

  /** A failure after which another attempt makes sense. */
  predicate Passing(s: Status) { s.Error? && s.retryable && s.code != CircuitOpen && s.code != Overloaded }

  /** Attempt `m` may start: the first always, a later one only where repeating is allowed, within the configured number
      and after a passing failure of the one before. */
  predicate MayTry(e: Env, i: int, n: int, m: int, f: Flags) {
    && n <= m && e.stop(i, m) == Success && e.reply(i, m).Some?
    && (m > n ==>
          && Repeatable(e, i) && m <= e.maxAttempts(i) && e.stop(i, m - 1) == Success && e.reply(i, m - 1).Some?
          && Passing(StatusOf(e, i, m - 1, f)))
  }

  lemma {:induction false} TryOnce(e: Env, i: int, n: int, m: int, f: Flags)
    requires Runs(e, i, n)
    ensures multiset(TryActs(e, i, n, f))[Attempt(i, m)] == Bit(m == n)
  {
    hide OneActs;
    OneActsAre(e.reply(i, n).value, i, n, FlagsOf(f, n));
    assert Attempt(i, m) !in OneActs(e.reply(i, n).value, i, n, FlagsOf(f, n));
  }

  lemma {:induction false} MayTryNext(e: Env, i: int, n: int, m: int, f: Flags)
    requires 1 <= n && Runs(e, i, n)
    ensures MayTry(e, i, n, n, f)
    ensures Again(e, i, n, f) && MayTry(e, i, n + 1, m, f) ==> MayTry(e, i, n, m, f) && m > n
  {
    hide OneStatus;
  }

  lemma {:induction false} LeafAttempts(e: Env, i: int, n: int, m: int, f: Flags)
    requires 1 <= n
    ensures multiset(LeafActs(e, i, n, f))[Attempt(i, m)] <= Bit(MayTry(e, i, n, m, f))
    decreases Attempts(e, i) - n
  {
    hide TryActs, MayTry, OneStatus, LeafActs, Runs;
    if Runs(e, i, n) {
      LeafIs(e, i, n, f);
      TryOnce(e, i, n, m, f);
      MayTryNext(e, i, n, m, f);
      if Again(e, i, n, f) {
        LeafAttempts(e, i, n + 1, m, f);
        SumOf(TryActs(e, i, n, f), LeafActs(e, i, n + 1, f), Attempt(i, m));
      }
    } else {
      NoLeaf(e, i, n, f);
    }
  }

  /** Attempt `n` is followed by another one. */
  predicate Again(e: Env, i: int, n: int, f: Flags) {
    e.reply(i, n).Some? && Retries(e, i, n, StatusOf(e, i, n, f))
  }

  lemma {:induction false} NoLeaf(e: Env, i: int, n: int, f: Flags)
    requires !Runs(e, i, n)
    ensures LeafActs(e, i, n, f) == []
  {
  }

  lemma {:induction false} SumOf(a: seq<Act>, b: seq<Act>, x: Act)
    ensures multiset(a + b)[x] == multiset(a)[x] + multiset(b)[x]
  {
  }

  lemma {:induction false} LeafIs(e: Env, i: int, n: int, f: Flags)
    requires Runs(e, i, n)
    ensures Again(e, i, n, f) ==> LeafActs(e, i, n, f) == TryActs(e, i, n, f) + LeafActs(e, i, n + 1, f)
    ensures !Again(e, i, n, f) ==> LeafActs(e, i, n, f) == TryActs(e, i, n, f)
  {
    hide OneActs, OneStatus;
  }

  lemma {:induction false} LeafStatusIs(e: Env, i: int, n: int, f: Flags)
    ensures e.stop(i, n) != Success ==> LeafStatus(e, i, n, f) == e.stop(i, n)
    ensures e.stop(i, n) == Success && e.reply(i, n).None? ==> LeafStatus(e, i, n, f) == Error(PoolClosed, true)
    ensures Runs(e, i, n) && Again(e, i, n, f) ==> LeafStatus(e, i, n, f) == LeafStatus(e, i, n + 1, f)
    ensures Runs(e, i, n) && !Again(e, i, n, f) ==> LeafStatus(e, i, n, f) == StatusOf(e, i, n, f)
  {
    hide OneStatus;
  }

  /** A write that may not be repeated is started at most once on its target. */
  lemma {:induction false} WithoutLeaveOnce(e: Env, i: int, m: int, f: Flags)
    requires !Repeatable(e, i)
    ensures multiset(LeafActs(e, i, 1, f))[Attempt(i, m)] <= Bit(m == 1)
  {
    hide LeafActs;
    LeafAttempts(e, i, 1, m, f);
  }

  /** Where repeating is allowed, a passing failure is followed by the next attempt as long as the number allows it and
      the operation and its pool let it start. */
  lemma {:induction false} RetriedWhenAllowed(e: Env, i: int, n: int, f: Flags)
    requires 1 <= n && Runs(e, i, n) && Repeatable(e, i) && n < e.maxAttempts(i) && Passing(StatusOf(e, i, n, f))
    requires e.stop(i, n + 1) == Success && e.reply(i, n + 1).Some?
    ensures Attempt(i, n) in LeafActs(e, i, n, f) && Attempt(i, n + 1) in LeafActs(e, i, n, f)
  {
    hide OneActs, OneStatus;
    var next := LeafActs(e, i, n + 1, f);
    assert next[0] == Attempt(i, n + 1);
    LeafIs(e, i, n, f);
    assert TryActs(e, i, n, f)[0] == Attempt(i, n);
    assert next[0] in TryActs(e, i, n, f) + next;
  }

  /** The checks an attempt meets before its statement, in their order, each with what it answers. */
  function Checks(a: Answer, f: Flags): seq<Status> {
    [if a.posted then Success else Error(Overloaded, true), if f.gate then a.gate else Success,
     a.breaker, a.stopped, a.borrow]
  }

  /** Whatever refuses an attempt first is what it reports; refused by none, it reports what its connection does. */
  lemma {:induction false} FirstRefusalReported(a: Answer, f: Flags, k: nat)
    requires k <= 5 && forall j :: 0 <= j < k ==> Checks(a, f)[j] == Success
    ensures k < 5 && Checks(a, f)[k] != Success ==> OneStatus(a, f) == Checks(a, f)[k] && !Executes(a, f)
    ensures k == 5 ==> OneStatus(a, f) == BorrowedStatus(a, f)
  {
    hide BorrowedStatus;
    assert k > 0 ==> Checks(a, f)[0] == Success;
    assert k > 1 ==> Checks(a, f)[1] == Success;
    assert k > 2 ==> Checks(a, f)[2] == Success;
    assert k > 3 ==> Checks(a, f)[3] == Success;
    assert k > 4 ==> Checks(a, f)[4] == Success;
  }

  /** An executed statement reports its own result, whichever way it was executed. */
  lemma {:induction false} ExecutedReportsResult(a: Answer, f: Flags)
    requires Executes(a, f)
    ensures OneStatus(a, f) == a.result
  {
  }
}

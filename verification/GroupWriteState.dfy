/** A write as its callbacks run it: one attempt, the retries of one target, and the group's index over the targets. */
module GroupWriteState {
  import opened Wrappers
  import opened LeafWrite
  import opened GroupWrite

  class GroupState {
    var index: nat
    var acts: seq<Act>

    constructor ()
      ensures index == 0 && acts == []
    {
      index, acts := 0, [];
    }

    method Do(act: Act)
      modifies this`acts
      ensures acts == old(acts) + [act]
    {
      acts := acts + [act];
    }

    method Finish(result: Status)
      modifies this`acts
      ensures acts == old(acts) + GroupWrite.Finish(result)
    {
      acts := acts + [After, Completed, Done(result)];
    }

    /** The blocking session, which calls the interceptors itself. */
    method RunSession(a: Answer, i: nat, n: nat, f: Flags) returns (result: Status)
      modifies this`acts
      ensures acts == old(acts) + SessionActs(a, i, n, f) && result == SessionStatus(a, f)
    {
      if !a.fallbackAllowed { return Error(NotSupported, false); }
      if f.interceptors {
        if a.audit != Success { return a.audit; }
        Do(Route);
        Do(Before);
        if a.sessionBefore != Success { Do(Completed); return a.sessionBefore; }
      }
      if a.sessionStop == Success { Do(Send(i, n)); } else { Do(Halted(i, n)); }
      if f.interceptors {
        Do(After);
        Do(Completed);
      }
      if a.sessionStop != Success { return a.sessionStop; }
      if a.result == Success { Do(TargetMark(i)); }
      result := a.result;
    }

    /** The native driver's callback. */
    method RunNative(a: Answer, i: nat, n: nat, f: Flags)
      modifies this`acts
      ensures acts == old(acts) + NativeActs(a, i, n, f)
    {
      Do(Send(i, n));
      if a.result == Success { Do(TargetMark(i)); }
      if f.interceptors { Do(After); Do(Completed); }
    }

    /** The borrow callback: the native driver, or the session when there is none or it declines. */
    method RunBorrowed(a: Answer, i: nat, n: nat, f: Flags) returns (result: Status)
      modifies this`acts
      ensures acts == old(acts) + BorrowedActs(a, i, n, f) && result == BorrowedStatus(a, f)
    {
      hide SessionActs, NativeActs;
      if a.native {
        if f.interceptors {
          Do(Route);
          Do(Before);
          if a.before != Success { Do(Completed); return a.before; }
        }
        if a.taken {
          RunNative(a, i, n, f);
          return a.result;
        }
        Do(Declined(i, n));
      }
      result := RunSession(a, i, n, f);
    }

    /** executeOne: one attempt, with the gate and the interceptors that its flags give it. */
    method ExecuteOne(a: Answer, i: nat, n: nat, f: Flags) returns (result: Status)
      modifies this`acts
      ensures acts == old(acts) + OneActs(a, i, n, f) && result == OneStatus(a, f)
    {
      hide BorrowedActs, BorrowedStatus;
      if !a.posted { return Error(Overloaded, true); }
      if f.gate {
        Do(PreGate);
        if a.gate != Success { return a.gate; }
      }
      if a.breaker != Success { return a.breaker; }
      if a.stopped != Success { return a.stopped; }
      if a.borrow != Success { return a.borrow; }
      result := RunBorrowed(a, i, n, f);
    }

    /** executeLeaf: the retry callbacks of one target; only the first attempt may pass the gate. */
    method ExecuteLeaf(e: Env, i: nat, f: Flags) returns (result: Status)
      modifies this`acts
      ensures acts == old(acts) + LeafActs(e, i, 1, f) && result == LeafStatus(e, i, 1, f)
    {
      hide OneActs, OneStatus, LeafActs, LeafStatus, Attempts;
      var attempt := 1;
      result := Success;
      while true
        invariant 1 <= attempt
        invariant acts + LeafActs(e, i, attempt, f) == old(acts) + LeafActs(e, i, 1, f)
        invariant LeafStatus(e, i, attempt, f) == LeafStatus(e, i, 1, f)
        decreases Attempts(e, i) - attempt
      {
        LeafStatusIs(e, i, attempt, f);
        if !Runs(e, i, attempt) { NoLeaf(e, i, attempt, f); } else { LeafIs(e, i, attempt, f); }
        if e.stop(i, attempt) != Success { return e.stop(i, attempt); }
        var reply := e.reply(i, attempt);
        if reply.None? { return Error(PoolClosed, true); }
        ghost var before := acts;
        Do(Attempt(i, attempt));
        var status := ExecuteOne(reply.value, i, attempt, FlagsOf(f, attempt));
        assert acts == before + TryActs(e, i, attempt, f);
        if !Retries(e, i, attempt, status) { return status; }
        attempt := attempt + 1;
      }
    }

    method BufferOrFinish(e: Env, last: Status)
      modifies this`acts
      ensures acts == old(acts) + BufferActs(e, last)
    {
      var result := last;
      if !e.shadow && e.bufferOn {
        Do(Buffer);
        if e.bufferTakes { result := Error(Buffered, false); }
      }
      Finish(result);
    }

    /** The run callback, from the current index on. */
    method RunTargets(e: Env)
      requires index < e.targets
      modifies this
      ensures acts == old(acts) + TargetActs(e, old(index))
    {
      hide LeafActs, LeafStatus, BufferActs, GroupWrite.Finish;
      while true
        invariant index < e.targets
        invariant acts + TargetActs(e, index) == old(acts) + TargetActs(e, old(index))
        decreases e.targets - index
      {
        ghost var before := acts;
        Split(e, index);
        Do(Target(index));
        if !e.eligible(index) {
          Finish(Error(PoolClosed, true));
          assert acts == before + TargetActs(e, index);
          return;
        }
        var result := ExecuteLeaf(e, index, BARE);
        assert acts == before + Own(e, index);
        if result == Success {
          if !e.shadow { Do(MarkWrite); }
          Finish(result);
          assert acts == before + TargetActs(e, index);
          return;
        }
        if e.shadow || !e.safe(result) {
          Finish(result);
          assert acts == before + TargetActs(e, index);
          return;
        }
        if index + 1 == e.targets {
          BufferOrFinish(e, result);
          assert acts == before + TargetActs(e, index);
          return;
        }
        index := index + 1;
      }
    }

    /** executeGroup: exactly the acts of the specification. */
    method Start(e: Env)
      requires index == 0 && acts == []
      modifies this
      ensures acts == Run(e)
    {
      if !e.posted { Do(Done(Error(Overloaded, true))); return; }
      Do(PreGate);
      if e.preGate != Success { Do(Done(e.preGate)); return; }
      Do(Route);
      Do(Before);
      if e.before != Success { Do(Completed); Do(Done(e.before)); return; }
      if e.targets > 0 { RunTargets(e); } else { BufferOrFinish(e, Error(CircuitOpen, true)); }
    }
  }
}

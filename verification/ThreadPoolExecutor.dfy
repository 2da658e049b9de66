/** The executor object: its locked regions on its own fields, each one step of the protocol. */
module ThreadPoolExecutor {
  import E = Executor
  import Counting

  class ThreadPool {
    var queue: seq<nat>
    var delayed: seq<E.Delayed>
    var stopping: bool
    var threadsStarted: bool
    var active: nat
    var submitted: nat
    var completed: nat
    var rejected: nat
    var nextSeq: nat
    const queueLimit: nat
    ghost var model: E.State

    ghost predicate Valid() reads this {
      && queue == model.queue && delayed == model.delayed && stopping == model.stopping
      && threadsStarted == model.started
      && active == model.active && submitted == model.submitted && completed == model.completed
      && rejected == model.rejected
      && nextSeq == model.nextSeq && queueLimit == model.limit && E.Inv(model)
    }

    constructor (threads: nat, limit: nat, ghost now: nat)
      ensures Valid() && E.Init(model) && queueLimit == (if limit > 0 then limit else 1)
    {
      queueLimit := if limit > 0 then limit else 1;
      queue, delayed, stopping, threadsStarted := [], [], false, false;
      active, submitted, completed, rejected, nextSeq := 0, 0, 0, 0, 0;
      model := E.State(if limit > 0 then limit else 1, if threads > 0 then threads else 1, now,
                       [], {}, [], [], 0, 0, false, false, [], E.NoTimer, E.NotCalled, 0, 0, 0, 0);
      new;
      E.InitInv(model);
    }

    ghost method Follow(e: E.Event)
      requires E.Inv(model) && E.Enabled(model, e)
      modifies this`model
      ensures E.Inv(model) && model == E.Fire(old(model), e)
    {
      E.StepInv(model, e);
      model := E.Fire(model, e);
    }

    /** tryPost; the new task is number `model.next`. */
    method TryPost(id: nat) returns (accepted: bool)
      requires Valid() && id == model.next
      modifies this
      ensures Valid() && model == E.Fire(old(model), E.Post)
      ensures accepted <==> !old(stopping) && |old(queue)| < queueLimit
      ensures accepted ==> model.queue == old(queue) + [id] && |queue| <= queueLimit
      ensures !accepted ==> queue == old(queue) && submitted == old(submitted)
    {
      hide E.Books, E.Timers, E.Threads, E.Once, E.Limited, E.Pool;
      Follow(E.Post);
      if stopping { return false; }
      threadsStarted := true;
      if |queue| >= queueLimit {
        rejected := rejected + 1;
        return false;
      }
      queue := queue + [id];
      submitted := submitted + 1;
      accepted := true;
    }

    /** The region in which a worker takes a task. */
    method WorkerTake(ghost w: nat) returns (task: nat)
      requires Valid() && E.Enabled(model, E.WorkerTake(w))
      modifies this
      ensures Valid() && model == E.Fire(old(model), E.WorkerTake(w)) && task == old(queue)[0]
      ensures Counting.Count(old(model).begun, task) == 0 && Counting.Count(model.begun, task) == 1
    {
      hide E.Books, E.Timers, E.Threads;
      task := queue[0];
      queue := queue[1..];
      active := active + 1;
      Follow(E.WorkerTake(w));
      assert E.Places(old(model), task) <= 1;
      Counting.CountFirst(old(queue), task);
      Counting.CountSnoc(old(model).begun, task, task);
    }

    /** The region after a worker's task. */
    method WorkerDone(ghost w: nat)
      requires Valid() && E.Enabled(model, E.WorkerDone(w))
      modifies this
      ensures Valid() && model == E.Fire(old(model), E.WorkerDone(w))
    {
      hide E.Books, E.Timers, E.Threads, E.Once, E.Limited;
      active := active - 1;
      completed := completed + 1;
      Follow(E.WorkerDone(w));
    }

    /** The timer's region: the top of the queue, if it is due. */
    method TimerTake(now: nat) returns (task: nat)
      requires Valid() && E.Enabled(model, E.TimerTake) && now == model.now
      modifies this
      ensures Valid() && model == E.Fire(old(model), E.TimerTake)
      ensures task == old(delayed)[0].id && old(delayed)[0].deadline <= now
    {
      hide E.Books, E.Timers, E.Threads, E.Once, E.Limited;
      task := delayed[0].id;
      delayed := delayed[1..];
      Follow(E.TimerTake);
    }

    /** The region of shutdown: empties the delayed tasks in priority order. */
    method TakeDelayed() returns (first: bool, tasks: seq<nat>)
      requires Valid()
      modifies this
      ensures Valid() && model == E.Fire(old(model), E.ShutdownCalled) && stopping
      ensures first == !old(stopping) && (first ==> tasks == E.Ids(old(delayed)) && delayed == [])
    {
      hide E.Books, E.Timers, E.Once, E.Limited;
      tasks := [];
      first := !stopping;
      ghost var before := delayed;
      if first {
        stopping := true;
        while delayed != []
          invariant tasks + E.Ids(delayed) == E.Ids(before)
          invariant model == old(model) && stopping && queue == old(queue) && threadsStarted == old(threadsStarted)
          invariant active == old(active) && submitted == old(submitted) && completed == old(completed)
          invariant rejected == old(rejected) && nextSeq == old(nextSeq)
          decreases |delayed|
        {
          tasks := tasks + [delayed[0].id];
          delayed := delayed[1..];
        }
      }
      Follow(E.ShutdownCalled);
    }
  }
}

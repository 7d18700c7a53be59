/**
 * The worker pool of os_threadpool.c: a FIFO queue of tasks, the waiting
 * counter that dequeue moves, the work-done flag set by the completion
 * check, and the effects the pool has through its function pointers.
 *
 * Every locked critical section of the source is one atomic method here.
 * Mutexes, condition variables and the threads themselves are not modelled.
 */
module ThreadPool {

  datatype Option<T> = None | Some(value: T)

  /** A task: the function to run, the argument it is run on, and the
      argument's destructor, which the source allows to be a null pointer. */
  datatype Task<Fn, Arg> = Task(action: Fn, argument: Arg, destroyArg: Option<Fn>)

  /** A call the pool makes through a task's pointers, in the order made. */
  datatype Event<Fn, Arg> =
    | Ran(action: Fn, argument: Arg)                 // t->action(t->argument)
    | ArgDestroyed(destructor: Fn, argument: Arg)    // t->destroy_arg(t->argument)
    | Freed(task: Task<Fn, Arg>)                     // free(t)

  /** The number of values of a C `unsigned int`. */
  const TwoTo32: int := 0x1_0000_0000

  /** The conversion of a C `int` to `unsigned int`. */
  function ToUnsigned(x: int): (u: int)
    ensures 0 <= u < TwoTo32
    ensures 0 <= x < TwoTo32 ==> u == x
    ensures -TwoTo32 <= x < 0 ==> u == x + TwoTo32
  {
    x % TwoTo32
  }

  /** create_task: a task carrying exactly the action, argument and
      destructor it was given. */
  function CreateTask<Fn, Arg>(action: Fn, arg: Arg, destroyArg: Option<Fn>): (t: Task<Fn, Arg>)
    ensures t.action == action && t.argument == arg && t.destroyArg == destroyArg
  {
    Task(action, arg, destroyArg)
  }

  /** What destroy_task does to a task: its argument's destructor, only
      when that is not null, and then the release of the task itself. */
  function DestroyEvents<Fn, Arg>(t: Task<Fn, Arg>): (es: seq<Event<Fn, Arg>>)
    ensures |es| == if t.destroyArg.Some? then 2 else 1
    ensures es[|es| - 1] == Freed(t)
    ensures forall e :: e in es && e.ArgDestroyed? ==>
              t.destroyArg == Some(e.destructor) && e.argument == t.argument
    ensures t.destroyArg.Some? ==> es[0] == ArgDestroyed(t.destroyArg.value, t.argument)
  {
    match t.destroyArg
    case None => [Freed(t)]
    case Some(f) => [ArgDestroyed(f, t.argument), Freed(t)]
  }

  /** One iteration of thread_loop_function on a dequeued task: run it, then destroy it. */
  function StepEvents<Fn, Arg>(t: Task<Fn, Arg>): (es: seq<Event<Fn, Arg>>)
    ensures |es| == 1 + |DestroyEvents(t)|
    ensures es[0] == Ran(t.action, t.argument)
    ensures es[1..] == DestroyEvents(t)
  {
    [Ran(t.action, t.argument)] + DestroyEvents(t)
  }

  /** The effects of destroying every task of `q`, head first. */
  function DrainEvents<Fn, Arg>(q: seq<Task<Fn, Arg>>): seq<Event<Fn, Arg>>
    decreases |q|
  {
    if |q| == 0 then [] else DestroyEvents(q[0]) + DrainEvents(q[1..])
  }

  /** The tasks released by a run of events, in order. */
  function FreedTasks<Fn, Arg>(es: seq<Event<Fn, Arg>>): seq<Task<Fn, Arg>>
    decreases |es|
  {
    if |es| == 0 then []
    else (if es[0].Freed? then [es[0].task] else []) + FreedTasks(es[1..])
  }

  /** The destructor calls in a run of events, in order. */
  function DestructorCalls<Fn, Arg>(es: seq<Event<Fn, Arg>>): seq<(Fn, Arg)>
    decreases |es|
  {
    if |es| == 0 then []
    else (if es[0].ArgDestroyed? then [(es[0].destructor, es[0].argument)] else []) + DestructorCalls(es[1..])
  }

  /** Reference definition: the destructor calls owed by the tasks of `q`,
      one per task whose destructor is not null. */
  function OwedDestructorCalls<Fn, Arg>(q: seq<Task<Fn, Arg>>): seq<(Fn, Arg)>
    decreases |q|
  {
    if |q| == 0 then []
    else (if q[0].destroyArg.Some? then [(q[0].destroyArg.value, q[0].argument)] else []) + OwedDestructorCalls(q[1..])
  }

  lemma {:induction false} FreedTasksAppend<Fn, Arg>(a: seq<Event<Fn, Arg>>, b: seq<Event<Fn, Arg>>)
    ensures FreedTasks(a + b) == FreedTasks(a) + FreedTasks(b)
    decreases |a|
  {
    if |a| == 0 {
      assert a + b == b;
    } else {
      var ab := a + b;
      assert ab[0] == a[0] && ab[1..] == a[1..] + b;
      FreedTasksAppend(a[1..], b);
    }
  }

  lemma {:induction false} DestructorCallsAppend<Fn, Arg>(a: seq<Event<Fn, Arg>>, b: seq<Event<Fn, Arg>>)
    ensures DestructorCalls(a + b) == DestructorCalls(a) + DestructorCalls(b)
    decreases |a|
  {
    if |a| == 0 {
      assert a + b == b;
    } else {
      var ab := a + b;
      assert ab[0] == a[0] && ab[1..] == a[1..] + b;
      DestructorCallsAppend(a[1..], b);
    }
  }

  /** Destroying the tasks of `q` and then `t` is destroying the tasks of `q + [t]`. */
  lemma {:induction false} DrainEventsSnoc<Fn, Arg>(q: seq<Task<Fn, Arg>>, t: Task<Fn, Arg>)
    ensures DrainEvents(q + [t]) == DrainEvents(q) + DestroyEvents(t)
    decreases |q|
  {
    if |q| == 0 {
      assert q + [t] == [t];
    } else {
      assert (q + [t])[1..] == q[1..] + [t];
      DrainEventsSnoc(q[1..], t);
    }
  }

  /** Draining releases every task of the queue exactly once, in queue order. */
  lemma {:induction false} DrainFreesEachTaskOnce<Fn, Arg>(q: seq<Task<Fn, Arg>>)
    ensures FreedTasks(DrainEvents(q)) == q
    decreases |q|
  {
    if |q| > 0 {
      var es := DestroyEvents(q[0]);
      FreedTasksAppend(es, DrainEvents(q[1..]));
      DrainFreesEachTaskOnce(q[1..]);
      if q[0].destroyArg.Some? {
        assert es[1..][1..] == [];
        assert FreedTasks(es) == [q[0]];
      } else {
        assert es[1..] == [];
        assert FreedTasks(es) == [q[0]];
      }
      assert q == [q[0]] + q[1..];
    }
  }

  /** Draining calls exactly the destructors owed: one call, on the task's own
      argument, for each task whose destructor is not null, and none otherwise. */
  lemma {:induction false} DrainCallsOwedDestructors<Fn, Arg>(q: seq<Task<Fn, Arg>>)
    ensures DestructorCalls(DrainEvents(q)) == OwedDestructorCalls(q)
    decreases |q|
  {
    if |q| > 0 {
      var es := DestroyEvents(q[0]);
      DestructorCallsAppend(es, DrainEvents(q[1..]));
      DrainCallsOwedDestructors(q[1..]);
      if q[0].destroyArg.Some? {
        assert es[1..][1..] == [];
        assert DestructorCalls(es) == [(q[0].destroyArg.value, q[0].argument)];
      } else {
        assert es[1..] == [];
        assert DestructorCalls(es) == [];
      }
    }
  }

  /** A call on the queue, for replaying a history of them. */
  datatype Op<T> = Enqueue(task: T) | Dequeue

  /** The queue, the waiting counter, the tasks handed out and the number of
      NULL results after a history of calls. */
  datatype Replayed<T> = Replayed(queue: seq<T>, waiting: int, popped: seq<T>, empties: nat)

  /** A history of enqueue_task and dequeue_task calls, each step as the
      corresponding method of ThreadPool below states it. */
  function Replay<T>(queue: seq<T>, waiting: int, ops: seq<Op<T>>): Replayed<T>
    decreases |ops|
  {
    if |ops| == 0 then Replayed(queue, waiting, [], 0)
    else match ops[0]
      case Enqueue(t) => Replay(queue + [t], waiting, ops[1..])
      case Dequeue =>
        if |queue| == 0 then
          var r := Replay(queue, waiting - 1, ops[1..]);
          r.(empties := r.empties + 1)
        else
          var r := Replay(queue[1..], waiting + 1, ops[1..]);
          r.(popped := [queue[0]] + r.popped)
  }

  /** The tasks a history enqueues, in order. */
  function Enqueued<T>(ops: seq<Op<T>>): seq<T>
    decreases |ops|
  {
    if |ops| == 0 then []
    else (if ops[0].Enqueue? then [ops[0].task] else []) + Enqueued(ops[1..])
  }

  /** FIFO: the tasks handed out, followed by those still queued, are exactly
      the tasks that were queued at the start and then enqueued, in order. */
  lemma {:induction false} FifoOrder<T>(queue: seq<T>, waiting: int, ops: seq<Op<T>>)
    ensures Replay(queue, waiting, ops).popped + Replay(queue, waiting, ops).queue == queue + Enqueued(ops)
    decreases |ops|
  {
    if |ops| > 0 {
      match ops[0]
      case Enqueue(t) =>
        FifoOrder(queue + [t], waiting, ops[1..]);
      case Dequeue =>
        if |queue| == 0 {
          FifoOrder(queue, waiting - 1, ops[1..]);
        } else {
          var r := Replay(queue[1..], waiting + 1, ops[1..]);
          FifoOrder(queue[1..], waiting + 1, ops[1..]);
          assert Replay(queue, waiting, ops) == r.(popped := [queue[0]] + r.popped);
          assert [queue[0]] + r.popped + r.queue == [queue[0]] + (queue[1..] + Enqueued(ops[1..]));
          assert queue == [queue[0]] + queue[1..];
        }
    }
  }

  /** The waiting counter only records dequeue results: up by one per task
      handed out, down by one per NULL. */
  lemma {:induction false} WaitingBalance<T>(queue: seq<T>, waiting: int, ops: seq<Op<T>>)
    ensures Replay(queue, waiting, ops).waiting
            == waiting + |Replay(queue, waiting, ops).popped| - Replay(queue, waiting, ops).empties
    decreases |ops|
  {
    if |ops| > 0 {
      match ops[0]
      case Enqueue(t) =>
        WaitingBalance(queue + [t], waiting, ops[1..]);
      case Dequeue =>
        if |queue| == 0 {
          WaitingBalance(queue, waiting - 1, ops[1..]);
        } else {
          WaitingBalance(queue[1..], waiting + 1, ops[1..]);
        }
    }
  }

  /** Runs a history of calls through the pool's own Enqueue and Dequeue:
      the queue, the counter, the tasks handed out and the NULL results are
      those of Replay, so FifoOrder and WaitingBalance hold of the pool. */
  method RunHistory<Fn, Arg>(p: ThreadPool<Fn, Arg>, ops: seq<Op<Task<Fn, Arg>>>)
    returns (popped: seq<Task<Fn, Arg>>, empties: nat)
    modifies p
    ensures p.queue == Replay(old(p.queue), old(p.waitingThreads), ops).queue
    ensures p.waitingThreads == Replay(old(p.queue), old(p.waitingThreads), ops).waiting
    ensures popped == Replay(old(p.queue), old(p.waitingThreads), ops).popped
    ensures empties == Replay(old(p.queue), old(p.waitingThreads), ops).empties
    ensures p.workDone == old(p.workDone) && p.log == old(p.log)
    decreases |ops|
  {
    if |ops| == 0 {
      return [], 0;
    }
    match ops[0]
    case Enqueue(t) =>
      p.Enqueue(t);
      popped, empties := RunHistory(p, ops[1..]);
    case Dequeue =>
      var t := p.Dequeue();
      popped, empties := RunHistory(p, ops[1..]);
      match t
      case None => empties := empties + 1;
      case Some(task) => popped := [task] + popped;
  }

  /** The pool, with the two counters that the source keeps as globals. */
  class ThreadPool<Fn, Arg> {
    var queue: seq<Task<Fn, Arg>>
    const numThreads: nat
    var waitingThreads: int
    var workDone: int
    /** Calls made through task pointers by the pool, oldest first. */
    var log: seq<Event<Fn, Arg>>

    /** create_threadpool, without starting its threads: an empty queue and
        both counters at their initial 0. */
    constructor(numThreads: nat)
      requires numThreads < TwoTo32
      ensures this.numThreads == numThreads
      ensures queue == [] && waitingThreads == 0 && workDone == 0 && log == []
    {
      this.numThreads := numThreads;
      queue := [];
      waitingThreads := 0;
      workDone := 0;
      log := [];
    }

    /** queue_is_empty. */
    function QueueIsEmpty(): (empty: bool)
      reads this
      ensures empty <==> queue == []
    {
      |queue| == 0
    }

    /** enqueue_task: the task goes to the tail; nothing else changes. */
    method Enqueue(t: Task<Fn, Arg>)
      modifies this
      ensures queue == old(queue) + [t]
      ensures waitingThreads == old(waitingThreads) && workDone == old(workDone) && log == old(log)
    {
      queue := queue + [t];
    }

    /** dequeue_task: NULL on an empty queue, with the waiting counter one
        lower; otherwise the head task, with the counter one higher. */
    method Dequeue() returns (t: Option<Task<Fn, Arg>>)
      modifies this
      ensures old(queue) == [] ==>
                t == None && queue == [] && waitingThreads == old(waitingThreads) - 1
      ensures old(queue) != [] ==>
                t == Some(old(queue)[0]) && queue == old(queue)[1..] && waitingThreads == old(waitingThreads) + 1
      ensures workDone == old(workDone) && log == old(log)
    {
      if QueueIsEmpty() {
        waitingThreads := waitingThreads - 1;
        return None;
      }
      t := Some(queue[0]);
      queue := queue[1..];
      waitingThreads := waitingThreads + 1;
    }

    /** destroy_task: the destructor when it is not null, then the release. */
    method DestroyTask(t: Task<Fn, Arg>)
      modifies this
      ensures log == old(log) + DestroyEvents(t)
      ensures queue == old(queue) && waitingThreads == old(waitingThreads) && workDone == old(workDone)
    {
      if t.destroyArg.Some? {
        log := log + [ArgDestroyed(t.destroyArg.value, t.argument)];
      }
      log := log + [Freed(t)];
    }

    /** The check at the top of wait_for_completion. The source compares the
        signed counter with `num_threads - 1` in unsigned arithmetic. When the
        check fails the source blocks and joins the workers; that part is not
        modelled and the state is left as it was. */
    method WaitForCompletion() returns (declared: bool)
      modifies this
      ensures declared <==> ToUnsigned(old(waitingThreads)) == ToUnsigned(numThreads - 1)
      ensures workDone == if declared then 1 else old(workDone)
      ensures queue == old(queue) && waitingThreads == old(waitingThreads) && log == old(log)
    {
      declared := ToUnsigned(waitingThreads) == ToUnsigned(numThreads - 1);
      if declared {
        workDone := 1;
      }
    }

    /** The drain in destroy_threadpool: every leftover task is unlinked and
        destroyed, head first. */
    method Destroy()
      modifies this
      ensures queue == []
      ensures log == old(log) + DrainEvents(old(queue))
      ensures waitingThreads == old(waitingThreads) && workDone == old(workDone)
    {
      ghost var drained: seq<Task<Fn, Arg>> := [];
      while !QueueIsEmpty()
        invariant drained + queue == old(queue)
        invariant log == old(log) + DrainEvents(drained)
        invariant waitingThreads == old(waitingThreads) && workDone == old(workDone)
        decreases |queue|
      {
        var t := queue[0];
        queue := queue[1..];
        DestroyTask(t);
        DrainEventsSnoc(drained, t);
        drained := drained + [t];
      }
      assert drained == old(queue);
    }
  }

  /** The completion check over the whole range of a C `int` counter,
      negative values included: for a pool of 1 to 2^31 threads it holds
      exactly when the counter equals `num_threads - 1`. */
  lemma CompletionCheckPlain(waiting: int, numThreads: nat)
    requires 1 <= numThreads <= TwoTo32 / 2 && -TwoTo32 / 2 <= waiting < TwoTo32 / 2
    ensures ToUnsigned(waiting) == ToUnsigned(numThreads - 1) <==> waiting == numThreads - 1
  {
  }

  /** The unsigned comparison at work: for a pool of zero threads
      `num_threads - 1` wraps around, and the check holds exactly when the
      counter is -1, that is after one more NULL dequeue than handed-out task. */
  lemma CompletionCheckZeroThreads(waiting: int)
    requires -TwoTo32 / 2 <= waiting < TwoTo32 / 2
    ensures ToUnsigned(waiting) == ToUnsigned(0 - 1) <==> waiting == -1
  {
  }
}

# Parallel-Graph: a sequential model of the thread pool and the graph visit

Parallel-Graph sums the values of a graph's nodes with a fixed pool of
worker threads. The pool (`src/os_threadpool.c`) keeps a FIFO list of tasks.
Each task is an action, an argument and an optional destructor for that
argument. The pool also has two global counters: `waiting_threads` and
`work_done`. The workload (`src/parallel.c`) gives each task a node index.
The task's action, `process_node_wrapper`, visits that node: if the node is
not `DONE`, its value goes into the global `sum` and the node is marked
`DONE`. The wrapper then enqueues a new task for the same node.

This model takes each locked critical section as one atomic step and proves
what each step does:

- `ThreadPool` (`thread_pool.dfy`) is the pool. The class `ThreadPool` holds
  the queue as a `seq`, the thread count, both counters, and a log of the
  calls made through the task's function pointers (run, argument destructor,
  release). Pure functions and lemmas beside the class state the FIFO order
  of a history of enqueues and dequeues, the counter arithmetic, and the
  drain done by `destroy_threadpool`.
- `Parallel` (`parallel.dfy`) is the workload. The graph is an immutable
  `seq<Node>`, `visited` is an `array`, and `sum` is a field of the class
  `Traversal`, together with the pool. `ProcessNode`, `ProcessNodeWrapper`
  and the worker loop are methods. Each is proved against the specification
  function `Visit` and its iterates. The lemmas state what this code does:
  - A visit keeps `sum` equal to the total value of the `DONE` nodes.
  - Visits are idempotent and commute.
  - The worker loop only rotates the queue, so it never stops once the queue
    holds a task.
  - From the seed task, only node 0 is ever visited.

In three places the code does not do what a working traversal would; the
model follows the code. (1) The neighbour loop of `process_node` builds a task for
each unvisited neighbour and then drops it (`src/parallel.c:57`). So the
traversal never spreads beyond the root, and `OnlyRootIsVisited` states
this. (2) `dequeue_task` lowers `waiting_threads` when the queue is empty
and raises it when it hands out a task (`src/os_threadpool.c:84`, `:95`).
A counter of idle workers would move the other way. (3) `wait_for_completion` declares
completion when `waiting_threads == num_threads - 1`, not when every
worker is idle. With `num_threads` taken to be `unsigned int`, the
comparison mixes a signed and an unsigned operand, so it is done modulo 2^32
(`ToUnsigned`).

## Model

| member | source | states |
|---|---|---|
| `ThreadPool.CreateTask` | src/os_threadpool.c:16-29 | the new task carries exactly the action, argument and destructor passed in |
| `ThreadPool.DestroyEvents` | src/os_threadpool.c:33-38 | destroying a task calls its destructor on its own argument only when the destructor is not null, and always frees the task last |
| `ThreadPool.StepEvents` | src/os_threadpool.c:108-112 | a loop iteration on a task first runs its action on its argument, then does exactly what destroying it does |
| `ThreadPool.ToUnsigned` | src/os_threadpool.c:122 | the conversion of the signed counter to unsigned: identity on non-negative values, plus 2^32 on negative ones |
| `ThreadPool.FreedTasksAppend` | src/os_threadpool.c:180-183 | the tasks freed by two runs of calls, one after the other, are those of the first run followed by those of the second |
| `ThreadPool.DestructorCallsAppend` | src/os_threadpool.c:180-183 | the destructor calls of two runs, one after the other, are those of the first run followed by those of the second |
| `ThreadPool.DrainEventsSnoc` | src/os_threadpool.c:180-183 | draining a queue and then destroying one more task is draining the longer queue |
| `ThreadPool.DrainFreesEachTaskOnce` | src/os_threadpool.c:180-183 | draining frees every leftover task exactly once, in queue order |
| `ThreadPool.DrainCallsOwedDestructors` | src/os_threadpool.c:180-183 | draining calls exactly one destructor per leftover task whose destructor is non-null, on that task's argument, in queue order, and no other |
| `ThreadPool.FifoOrder` | src/os_threadpool.c:41-97 | over any history of enqueues and dequeues, the tasks handed out followed by those still queued are the initial queue followed by the enqueued tasks, in order |
| `ThreadPool.WaitingBalance` | src/os_threadpool.c:83-96 | after any history, the waiting counter has risen by one per task handed out and fallen by one per NULL result |
| `ThreadPool.RunHistory` | src/os_threadpool.c:41-97 | running a history of calls through the pool's `Enqueue` and `Dequeue` leaves exactly the queue and counter of `Replay`, and hands out its tasks and NULL results, so `FifoOrder` and `WaitingBalance` hold of the pool |
| `ThreadPool.CompletionCheckPlain` | src/os_threadpool.c:122 | for 1 to 2^31 threads and every `int` counter value, negative ones included, the unsigned check holds exactly when `waiting_threads == num_threads - 1` |
| `ThreadPool.CompletionCheckZeroThreads` | src/os_threadpool.c:122 | with zero threads, `num_threads - 1` wraps around and the check holds exactly when the counter is -1 |
| `ThreadPool.ThreadPool.constructor` | src/os_threadpool.c:12-13 | both counters start at 0, as the globals do; as in `create_threadpool` (lines 151 and 160), the queue is empty and the thread count is the one given. The model resets the counters for each new pool, whereas the source's globals are never reset; `main` creates only one pool |
| `ThreadPool.ThreadPool.QueueIsEmpty` | src/os_threadpool.c:63-66 | true exactly when no task is queued |
| `ThreadPool.ThreadPool.Enqueue` | src/os_threadpool.c:41-57 | the queue becomes the old queue with the task appended at the tail; counters and log are unchanged |
| `ThreadPool.ThreadPool.Dequeue` | src/os_threadpool.c:75-97 | on an empty queue: NULL, queue unchanged, counter one lower; otherwise: the head task, the queue becomes its tail, counter one higher |
| `ThreadPool.ThreadPool.DestroyTask` | src/os_threadpool.c:33-38 | appends exactly the calls of `DestroyEvents` to the log; queue and counters are unchanged |
| `ThreadPool.ThreadPool.WaitForCompletion` | src/os_threadpool.c:118-127 | `work_done` becomes 1 exactly when the unsigned check `waiting_threads == num_threads - 1` holds, and is otherwise unchanged; the queue and the counter are never touched |
| `ThreadPool.ThreadPool.Destroy` | src/os_threadpool.c:172-187 | the queue ends empty, and the log gains the destruction of every leftover task, head first |
| `Parallel.Visit` | src/parallel.c:37-50 | a node not DONE adds its `info` to `sum` and becomes DONE; a DONE node changes nothing; no other slot changes |
| `Parallel.Spawned` | src/parallel.c:52-60 | the tasks built by the neighbour loop are node tasks for neighbours that are NOT_VISITED, and every such neighbour gets one |
| `Parallel.DoneSumMark` | src/parallel.c:44-49 | marking a node DONE adds its value to the total of the DONE nodes, unless it was DONE already |
| `Parallel.VisitKeepsAccount` | src/parallel.c:39-50 | a visit keeps `sum` minus the total value of the DONE nodes unchanged, so each DONE node is counted in `sum` exactly once |
| `Parallel.VisitIdempotent` | src/parallel.c:39-50 | visiting a node twice in a row is the same as visiting it once: its value is added only once |
| `Parallel.VisitCommutes` | src/parallel.c:39-50 | two visits give the same marks and sum in either order |
| `Parallel.RotateAt` | src/os_threadpool.c:105-113 | within the first round, the head of the queue after k pop-and-re-enqueue iterations is the k-th task of the original queue |
| `Parallel.RotatePermutes` | src/os_threadpool.c:105-113 | pop-and-re-enqueue iterations neither lose nor duplicate a task |
| `Parallel.FirstRoundMarks` | src/os_threadpool.c:105-113 | after the loop has gone once round the queue, every node named in it is DONE |
| `Parallel.RoundStable` | src/parallel.c:30-35 | after one round, further iterations leave the marks and the sum unchanged |
| `Parallel.OnlyRootIsVisited` | src/parallel.c:52-58 | starting from the seed task for node 0 on a fresh graph, any number of iterations leaves `sum` equal to node 0's value, node 0 DONE, and every other node NOT_VISITED |
| `Parallel.NoneDone` | src/parallel.c:14 | with no node DONE, the total value of the DONE nodes is 0, the initial value of `sum` |
| `Parallel.Traversal.constructor` | src/parallel.c:75-91 | the set-up in `main`: a fresh graph, a pool of NUM_THREADS threads whose queue holds only the seed task for node 0, and `sum` at 0 |
| `Parallel.Traversal.ProcessNode` | src/parallel.c:37-62 | marks and sum become those of `Visit`; the tasks it builds are those of `Spawned` on the new marks, and none when the node was DONE; the pool is untouched; the invariant that `sum` is the total of the DONE nodes is kept |
| `Parallel.Traversal.ProcessNodeWrapper` | src/parallel.c:30-35 | performs `Visit` on the payload's node, then the queue gains exactly one task for that same node at its tail |
| `Parallel.Traversal.Run` | src/os_threadpool.c:111 | logs the call; for the wrapper, acts as `ProcessNodeWrapper`; for `free`, changes no modelled state |
| `Parallel.Traversal.Step` | src/os_threadpool.c:105-113 | stops exactly when the queue is empty, and then lowers the counter and changes nothing else; otherwise moves the head task to the tail, visits its node, logs its run and then its destruction, and raises the counter |
| `Parallel.Traversal.ThreadLoop` | src/os_threadpool.c:100-115 | stops only on an empty queue and otherwise runs every iteration; the queue ends rotated by the number of iterations; the marks and sum are the iterated visits; the log and the counter match the iterations |

## Left out

- Threads, mutexes and condition variables are not modelled. This covers the signal and broadcast calls, the `pthread_cond_wait` loop and the joins in `wait_for_completion`, and thread creation in `create_threadpool`. Each locked section is one atomic step.
- `ThreadPool.ThreadPool.WaitForCompletion`: when the check fails, the source blocks until `waiting_threads` is at most 0 and then joins the workers. The model returns with nothing changed.
- `ThreadPool.ThreadPool.Dequeue`: the source raises `waiting_threads` after releasing the lock, which is a data race. The model makes the update part of the atomic step.
- Quiescence, termination and deadlock-freedom are not stated. The counters do not track idle workers, and the wrapper always re-enqueues its node. `ThreadLoop` states that the loop never stops on a non-empty queue.
- "`sum` is the total of the reachable nodes" does not hold for this code and is not stated. Neighbour tasks are built and never enqueued. `OnlyRootIsVisited` states what holds instead.
- `Parallel.Traversal.ThreadLoop`: the source loops forever (`while (1)`). The model runs at most `fuel` iterations.
- `Parallel.Traversal.ProcessNode`: the source returns nothing and leaks the tasks its neighbour loop builds. The model returns them so that their contents can be stated.
- Memory is not modelled. This covers every `malloc` and `free`, and the copy of `sizeof(*arg)` bytes in `create_task`, which copies one byte of a four-byte index. The argument is a whole node index, and destructor and release calls are log entries.
- `printf` logging, `DIE` aborts, `main`'s argument and file handling, and the unused `queue_mutex`/`queue_cond` are left out. `create_graph_from_file` and `os_graph.h` are not part of this model. The visit-state enum is assumed to have NOT_VISITED, PROCESSING and DONE. The conditions compare against DONE and NOT_VISITED exactly as the source writes them.
- `os_threadpool.h` is not part of this model. The model assumes it declares `num_threads` as `unsigned int`, as the parameter of `create_threadpool` and the join loop suggest; the completion check is therefore an unsigned comparison.
- `sum`, `info` and `waiting_threads` are mathematical integers; C `int` overflow is not modelled. Only the unsigned comparison in `wait_for_completion` is modelled modulo 2^32.

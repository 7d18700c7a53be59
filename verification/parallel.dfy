/**
 * The graph workload of parallel.c on top of the pool: the per-node visit
 * step over a fixed graph, the task wrapper that re-enqueues its own node,
 * and the worker loop of os_threadpool.c, which dispatches to that wrapper.
 *
 * The graph's nodes never change; the visited array and the sum are the
 * state the visit step updates. Every locked section is one atomic step.
 */
module Parallel {
  import opened ThreadPool

  /** The per-node mark. os_graph.h is not part of this model; the three
      states of its enum are assumed, and only NotVisited and Done occur. */
  datatype VisitState = NotVisited | Processing | Done

  /** A node: its value (`info`) and the indices of its neighbours. */
  datatype Node = Node(info: int, neighbours: seq<nat>)

  /** graph_task_arg_t: the payload of a traversal task. */
  datatype GraphTaskArg = GraphTaskArg(nodeIndex: nat)

  /** The functions whose addresses parallel.c stores in tasks. */
  datatype Fn = ProcessNodeWrapperPtr | FreePtr

  type GraphTask = Task<Fn, GraphTaskArg>

  /** NUM_THREADS. */
  const NumThreads: nat := 4

  /** Every neighbour index names a node of the graph. */
  predicate WellFormed(nodes: seq<Node>)
  {
    forall i, k :: 0 <= i < |nodes| && 0 <= k < |nodes[i].neighbours| ==> nodes[i].neighbours[k] < |nodes|
  }

  /** The task parallel.c builds for node `idx`: the wrapper, the index, and
      `free` as the argument's destructor. */
  function NodeTask(idx: nat): GraphTask
  {
    CreateTask(ProcessNodeWrapperPtr, GraphTaskArg(idx), Some(FreePtr))
  }

  /** The state a visit reads and writes: the visited marks and the sum. */
  datatype Shared = Shared(visited: seq<VisitState>, sum: int)

  /** What process_node does to the shared state: a node not yet Done adds
      its value to the sum and becomes Done; a Done node changes nothing. */
  function Visit(nodes: seq<Node>, s: Shared, idx: nat): (r: Shared)
    requires idx < |nodes| == |s.visited|
    ensures |r.visited| == |s.visited|
    ensures r.visited[idx] == Done
    ensures forall j :: 0 <= j < |s.visited| && j != idx ==> r.visited[j] == s.visited[j]
    ensures r.sum == s.sum + if s.visited[idx] == Done then 0 else nodes[idx].info
  {
    if s.visited[idx] != Done then Shared(s.visited[idx := Done], s.sum + nodes[idx].info) else s
  }

  /** The tasks the neighbour loop of process_node creates: one per
      neighbour still NotVisited, in neighbour order. */
  function Spawned(visited: seq<VisitState>, ns: seq<nat>): (ts: seq<GraphTask>)
    requires forall k :: 0 <= k < |ns| ==> ns[k] < |visited|
    ensures |ts| <= |ns|
    ensures forall t :: t in ts ==>
              t == NodeTask(t.argument.nodeIndex) && t.argument.nodeIndex in ns && visited[t.argument.nodeIndex] == NotVisited
    ensures forall k :: 0 <= k < |ns| && visited[ns[k]] == NotVisited ==> NodeTask(ns[k]) in ts
    decreases |ns|
  {
    if |ns| == 0 then []
    else
      var last := ns[|ns| - 1];
      Spawned(visited, ns[..|ns| - 1]) + if visited[last] == NotVisited then [NodeTask(last)] else []
  }

  /** The values of the Done nodes among the first |visited| nodes, added up. */
  function DoneSum(nodes: seq<Node>, visited: seq<VisitState>): int
    requires |visited| <= |nodes|
    decreases |visited|
  {
    if |visited| == 0 then 0
    else
      var n := |visited| - 1;
      DoneSum(nodes, visited[..n]) + if visited[n] == Done then nodes[n].info else 0
  }

  /** Marking one slot Done adds that node's value to DoneSum, unless it was Done already. */
  lemma {:induction false} DoneSumMark(nodes: seq<Node>, visited: seq<VisitState>, idx: nat)
    requires idx < |visited| <= |nodes|
    ensures DoneSum(nodes, visited[idx := Done])
            == DoneSum(nodes, visited) + if visited[idx] == Done then 0 else nodes[idx].info
    decreases |visited|
  {
    var n := |visited| - 1;
    var marked := visited[idx := Done];
    assert marked[..n] == if idx < n then visited[..n][idx := Done] else visited[..n];
    if idx < n {
      DoneSumMark(nodes, visited[..n], idx);
    }
  }

  /** The accounting a visit keeps: the sum minus the values of the Done
      nodes does not change, so from a fresh graph and a zero sum every Done
      node has been counted in the sum exactly once. */
  lemma VisitKeepsAccount(nodes: seq<Node>, s: Shared, idx: nat)
    requires idx < |nodes| == |s.visited|
    ensures Visit(nodes, s, idx).sum - DoneSum(nodes, Visit(nodes, s, idx).visited)
            == s.sum - DoneSum(nodes, s.visited)
  {
    if s.visited[idx] != Done {
      DoneSumMark(nodes, s.visited, idx);
    }
  }

  /** Visiting a node twice in a row is visiting it once. */
  lemma VisitIdempotent(nodes: seq<Node>, s: Shared, idx: nat)
    requires idx < |nodes| == |s.visited|
    ensures Visit(nodes, Visit(nodes, s, idx), idx) == Visit(nodes, s, idx)
  {
  }

  /** The order of two visits does not matter. */
  lemma VisitCommutes(nodes: seq<Node>, s: Shared, i: nat, j: nat)
    requires i < |nodes| && j < |nodes| && |s.visited| == |nodes|
    ensures Visit(nodes, Visit(nodes, s, i), j) == Visit(nodes, Visit(nodes, s, j), i)
  {
  }

  /** The queue after `k` pop-and-re-enqueue rounds. */
  function Rotate<T>(q: seq<T>, k: nat): (r: seq<T>)
    ensures |r| == |q|
    decreases k
  {
    if k == 0 || |q| == 0 then q
    else
      var p := Rotate(q, k - 1);
      p[1..] + [p[0]]
  }

  /** Within the first round, slot `j` of the queue rotated `k` times holds
      the task `k` places further on in the original queue. */
  lemma {:induction false} RotateAt<T>(q: seq<T>, k: nat, j: nat)
    requires j + k < |q|
    ensures Rotate(q, k)[j] == q[j + k]
    decreases k
  {
    if k > 0 {
      RotateAt(q, k - 1, j + 1);
    }
  }

  /** Rotation loses no task and adds none. */
  lemma {:induction false} RotatePermutes<T>(q: seq<T>, k: nat)
    ensures multiset(Rotate(q, k)) == multiset(q)
    decreases k
  {
    if k > 0 && |q| > 0 {
      RotatePermutes(q, k - 1);
      var p := Rotate(q, k - 1);
      assert p == [p[0]] + p[1..];
    }
  }

  /** Every node index in `q` names a node, and every task in it is the
      task parallel.c builds for that index. */
  predicate TasksFor(nodes: seq<Node>, q: seq<GraphTask>)
  {
    forall t :: t in q ==> t == NodeTask(t.argument.nodeIndex) && t.argument.nodeIndex < |nodes|
  }

  /** The shared state after `k` iterations of the worker loop, started on
      queue `q`: iteration `j` visits the node at the head of `Rotate(q, j)`. */
  function VisitQueue(nodes: seq<Node>, s: Shared, q: seq<GraphTask>, k: nat): (r: Shared)
    requires |s.visited| == |nodes| && TasksFor(nodes, q)
    ensures |r.visited| == |nodes|
    decreases k
  {
    if k == 0 || |q| == 0 then s
    else
      RotatePermutes(q, k - 1);
      var t := Rotate(q, k - 1)[0];
      assert t in multiset(Rotate(q, k - 1));
      Visit(nodes, VisitQueue(nodes, s, q, k - 1), t.argument.nodeIndex)
  }

  /** The calls made through task pointers in `k` iterations of the worker
      loop started on queue `q`. */
  function LoopEvents(q: seq<GraphTask>, k: nat): seq<Event<Fn, GraphTaskArg>>
    decreases k
  {
    if k == 0 || |q| == 0 then [] else LoopEvents(q, k - 1) + StepEvents(Rotate(q, k - 1)[0])
  }

  /** Once the loop has gone once round the queue, every node it names is Done. */
  lemma {:induction false} FirstRoundMarks(nodes: seq<Node>, s: Shared, q: seq<GraphTask>, k: nat, m: nat)
    requires |s.visited| == |nodes| && TasksFor(nodes, q)
    requires m < k <= |q|
    ensures VisitQueue(nodes, s, q, k).visited[q[m].argument.nodeIndex] == Done
    decreases k
  {
    RotateAt(q, k - 1, 0);
    assert q[m] in q;
    if m < k - 1 {
      FirstRoundMarks(nodes, s, q, k - 1, m);
    }
  }

  /** After one round every further iteration re-visits a Done node, so the
      visited marks and the sum stay as they were after the first round. */
  lemma {:induction false} RoundStable(nodes: seq<Node>, s: Shared, q: seq<GraphTask>, k: nat)
    requires |s.visited| == |nodes| && TasksFor(nodes, q)
    requires |q| <= k
    ensures VisitQueue(nodes, s, q, k) == VisitQueue(nodes, s, q, |q|)
    decreases k
  {
    if k > |q| > 0 {
      RoundStable(nodes, s, q, k - 1);
      RotatePermutes(q, k - 1);
      var t := Rotate(q, k - 1)[0];
      assert t in multiset(Rotate(q, k - 1));
      var m :| 0 <= m < |q| && q[m] == t;
      FirstRoundMarks(nodes, s, q, |q|, m);
    }
  }

  /** The traversal as written: from the seed task for node 0 on a fresh
      graph, any number of worker iterations visits node 0 alone, because the
      tasks for its neighbours are built and never enqueued. */
  lemma OnlyRootIsVisited(nodes: seq<Node>, k: nat)
    requires 0 < |nodes| && 0 < k
    ensures var start := Shared(seq(|nodes|, _ => NotVisited), 0);
            var r := VisitQueue(nodes, start, [NodeTask(0)], k);
            r.sum == nodes[0].info &&
            r.visited[0] == Done &&
            forall j :: 0 < j < |nodes| ==> r.visited[j] == NotVisited
  {
    var start := Shared(seq(|nodes|, _ => NotVisited), 0);
    RoundStable(nodes, start, [NodeTask(0)], k);
    assert VisitQueue(nodes, start, [NodeTask(0)], 1) == Visit(nodes, start, 0);
  }

  /** The program's globals: the graph with its visited array, the sum and
      the pool, as main sets them up. */
  class Traversal {
    const nodes: seq<Node>
    const visited: array<VisitState>
    var sum: int
    const tp: ThreadPool<Fn, GraphTaskArg>

    /** The graph is well formed and `visited` covers it, every queued task
        is a node task for a node of the graph, and the sum holds the value
        of every Done node exactly once. */
    ghost predicate Valid()
      reads this, visited, tp
    {
      visited.Length == |nodes| &&
      WellFormed(nodes) &&
      TasksFor(nodes, tp.queue) &&
      sum == DoneSum(nodes, visited[..])
    }

    /** The set-up in main: a fresh graph, a pool of NUM_THREADS threads, and
        the seed task for node 0 in its queue. */
    constructor(nodes: seq<Node>)
      requires WellFormed(nodes) && 0 < |nodes|
      ensures Valid()
      ensures this.nodes == nodes && sum == 0
      ensures forall j :: 0 <= j < visited.Length ==> visited[j] == NotVisited
      ensures tp.queue == [NodeTask(0)] && tp.numThreads == NumThreads
      ensures tp.waitingThreads == 0 && tp.workDone == 0 && tp.log == []
      ensures fresh(visited) && fresh(tp)
    {
      var pool := new ThreadPool<Fn, GraphTaskArg>(NumThreads);
      pool.Enqueue(NodeTask(0));
      this.nodes := nodes;
      visited := new VisitState[|nodes|](_ => NotVisited);
      sum := 0;
      tp := pool;
      new;
      NoneDone(nodes, visited[..]);
    }

    /** process_node. Returns the tasks the neighbour loop builds and then
        drops, so that the model can say which they are. */
    method ProcessNode(idx: nat) returns (discarded: seq<GraphTask>)
      requires Valid() && idx < |nodes|
      modifies this`sum, visited
      ensures Valid()
      ensures Shared(visited[..], sum) == Visit(nodes, old(Shared(visited[..], sum)), idx)
      ensures discarded == if old(visited[idx]) == Done then [] else Spawned(visited[..], nodes[idx].neighbours)
      ensures unchanged(tp)
    {
      discarded := [];
      if visited[idx] != Done {
        var node := nodes[idx];
        ghost var before := visited[..];
        sum := sum + node.info;
        visited[idx] := Done;
        assert visited[..] == before[idx := Done];
        DoneSumMark(nodes, before, idx);
        for i := 0 to |node.neighbours|
          invariant discarded == Spawned(visited[..], node.neighbours[..i])
        {
          var n := node.neighbours[i];
          if visited[n] == NotVisited {
            var taskArg := GraphTaskArg(n);
            var newTask := CreateTask(ProcessNodeWrapperPtr, taskArg, Some(FreePtr));
            assert node.neighbours[..i + 1][..i] == node.neighbours[..i];
            discarded := discarded + [newTask];
          } else {
            assert node.neighbours[..i + 1][..i] == node.neighbours[..i];
          }
        }
        assert node.neighbours[..|node.neighbours|] == node.neighbours;
      }
    }

    /** process_node_wrapper: visit the payload's node, then enqueue one new
        task for that same node. */
    method ProcessNodeWrapper(arg: GraphTaskArg)
      requires Valid() && arg.nodeIndex < |nodes|
      modifies this, visited, tp
      ensures Valid()
      ensures Shared(visited[..], sum) == Visit(nodes, old(Shared(visited[..], sum)), arg.nodeIndex)
      ensures tp.queue == old(tp.queue) + [NodeTask(arg.nodeIndex)]
      ensures tp.waitingThreads == old(tp.waitingThreads) && tp.workDone == old(tp.workDone)
      ensures tp.log == old(tp.log)
    {
      var _ := ProcessNode(arg.nodeIndex);
      tp.Enqueue(CreateTask(ProcessNodeWrapperPtr, arg, Some(FreePtr)));
    }

    /** The indirect call `t->action(t->argument)` of the worker loop. Only
        the wrapper touches the model's state; `free` as an action releases
        its argument, which the model does not track. */
    method Run(t: GraphTask)
      requires Valid()
      requires t.action.ProcessNodeWrapperPtr? ==> t.argument.nodeIndex < |nodes|
      modifies this, visited, tp
      ensures Valid()
      ensures tp.log == old(tp.log) + [Ran(t.action, t.argument)]
      ensures t.action.ProcessNodeWrapperPtr? ==>
                Shared(visited[..], sum) == Visit(nodes, old(Shared(visited[..], sum)), t.argument.nodeIndex) &&
                tp.queue == old(tp.queue) + [NodeTask(t.argument.nodeIndex)]
      ensures t.action.FreePtr? ==> visited[..] == old(visited[..]) && sum == old(sum) && tp.queue == old(tp.queue)
      ensures tp.waitingThreads == old(tp.waitingThreads) && tp.workDone == old(tp.workDone)
    {
      tp.log := tp.log + [Ran(t.action, t.argument)];
      match t.action
      case ProcessNodeWrapperPtr =>
        ProcessNodeWrapper(t.argument);
      case FreePtr =>
    }

    /** One iteration of thread_loop_function: dequeue; on NULL report that
        the loop stops; otherwise run the task and then destroy it. */
    method Step() returns (stopped: bool)
      requires Valid()
      modifies this, visited, tp
      ensures Valid()
      ensures stopped <==> old(tp.queue) == []
      ensures stopped ==>
                tp.queue == [] && visited[..] == old(visited[..]) && sum == old(sum) &&
                tp.log == old(tp.log) && tp.waitingThreads == old(tp.waitingThreads) - 1
      ensures !stopped ==>
                var t := old(tp.queue)[0];
                tp.queue == old(tp.queue)[1..] + [t] &&
                Shared(visited[..], sum) == Visit(nodes, old(Shared(visited[..], sum)), t.argument.nodeIndex) &&
                tp.log == old(tp.log) + StepEvents(t) &&
                tp.waitingThreads == old(tp.waitingThreads) + 1
      ensures tp.workDone == old(tp.workDone)
    {
      var t := tp.Dequeue();
      if t.None? {
        return true;
      }
      var task := t.value;
      assert task in old(tp.queue);
      Run(task);
      tp.DestroyTask(task);
      stopped := false;
    }

    /** thread_loop_function, for at most `fuel` iterations (the source loops
        until dequeue_task yields NULL). Since the wrapper re-enqueues its
        node, a non-empty queue only rotates and the loop never stops. */
    method ThreadLoop(fuel: nat) returns (steps: nat, stopped: bool)
      requires Valid()
      modifies this, visited, tp
      ensures Valid()
      ensures stopped <==> 0 < fuel && old(tp.queue) == []
      ensures steps == if old(tp.queue) == [] then 0 else fuel
      ensures tp.queue == Rotate(old(tp.queue), steps)
      ensures Shared(visited[..], sum) == VisitQueue(nodes, old(Shared(visited[..], sum)), old(tp.queue), steps)
      ensures tp.log == old(tp.log) + LoopEvents(old(tp.queue), steps)
      ensures tp.waitingThreads == old(tp.waitingThreads) + steps - if stopped then 1 else 0
      ensures tp.workDone == old(tp.workDone)
    {
      ghost var q0 := tp.queue;
      ghost var s0 := Shared(visited[..], sum);
      ghost var log0 := tp.log;
      ghost var w0 := tp.waitingThreads;
      steps, stopped := 0, false;
      while steps < fuel
        invariant Valid()
        invariant steps <= fuel
        invariant q0 == [] ==> steps == 0
        invariant TasksFor(nodes, q0)
        invariant tp.queue == Rotate(q0, steps)
        invariant Shared(visited[..], sum) == VisitQueue(nodes, s0, q0, steps)
        invariant tp.log == log0 + LoopEvents(q0, steps)
        invariant tp.waitingThreads == w0 + steps
        invariant tp.workDone == old(tp.workDone)
      {
        ghost var q := tp.queue;
        stopped := Step();
        if stopped {
          break;
        }
        steps := steps + 1;
      }
    }
  }

  /** A fresh visited array holds no Done node. */
  lemma {:induction false} NoneDone(nodes: seq<Node>, visited: seq<VisitState>)
    requires |visited| <= |nodes|
    requires forall j :: 0 <= j < |visited| ==> visited[j] == NotVisited
    ensures DoneSum(nodes, visited) == 0
    decreases |visited|
  {
    if |visited| > 0 {
      NoneDone(nodes, visited[..|visited| - 1]);
    }
  }
}

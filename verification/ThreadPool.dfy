/** The FIFO of src/thread_pool.c. The first half is the linked list the workers share,
    with the critical sections of submitters and workers as methods; the second half is
    the state machine those critical sections run through, over all interleavings. */
module ThreadPools {
  datatype Task = Task(routine: nat, arg: nat)

  /** The pool as its lock protects it. `accepted` and `taken` are histories: the tasks
      submit has accepted and the tasks workers have taken, in order. */
  datatype Pool = Pool(queue: seq<Task>, shutdown: bool, accepted: seq<Task>, taken: seq<Task>, exited: nat)

  datatype Event = Submitting(task: Task) | Working | ShuttingDown

  /** What one critical section does to the pool. */
  function Next(p: Pool, e: Event): Pool {
    match e
    case Submitting(task) =>
      if p.shutdown then p else p.(queue := p.queue + [task], accepted := p.accepted + [task])
    case Working =>
      if p.queue != [] then p.(queue := p.queue[1..], taken := p.taken + [p.queue[0]])
      else if p.shutdown then p.(exited := p.exited + 1)
      else p
    case ShuttingDown => p.(shutdown := true)
  }

  function Run(p: Pool, events: seq<Event>): Pool
    decreases events
  {
    if events == [] then p else Run(Next(p, events[0]), events[1..])
  }

  const EMPTY_POOL := Pool([], false, [], [], 0)

  /** Nothing is lost, repeated or reordered, and no worker is gone while work remains. */
  ghost predicate Conserves(p: Pool) {
    && p.accepted == p.taken + p.queue
    && (p.exited > 0 ==> p.shutdown && p.queue == [])
  }

  lemma NextConserves(p: Pool, e: Event)
    requires Conserves(p)
    ensures Conserves(Next(p, e))
    ensures p.accepted <= Next(p, e).accepted && p.taken <= Next(p, e).taken
    ensures p.exited > 0 ==> Next(p, e).queue == [] && Next(p, e).accepted == p.accepted
  {
    if e.Working? && p.queue != [] {
      assert p.queue == [p.queue[0]] + p.queue[1..];
    }
  }

  /** Every run conserves the tasks in FIFO order; and from the moment one worker has
      exited, the queue stays empty and nothing more is accepted. */
  lemma {:induction false} RunConserves(p: Pool, events: seq<Event>)
    requires Conserves(p)
    ensures Conserves(Run(p, events))
    ensures p.accepted <= Run(p, events).accepted && p.taken <= Run(p, events).taken
    ensures p.exited > 0 ==> Run(p, events).queue == [] && Run(p, events).accepted == p.accepted
    decreases events
  {
    if events != [] {
      NextConserves(p, events[0]);
      assert Next(p, events[0]).exited >= p.exited;
      RunConserves(Next(p, events[0]), events[1..]);
    }
  }

  /** The k-th task taken is the k-th task accepted, so each is taken exactly once. */
  lemma TakenInOrder(events: seq<Event>, k: nat)
    requires k < |Run(EMPTY_POOL, events).taken|
    ensures k < |Run(EMPTY_POOL, events).accepted|
    ensures Run(EMPTY_POOL, events).taken[k] == Run(EMPTY_POOL, events).accepted[k]
  {
    RunConserves(EMPTY_POOL, events);
  }

  /** With enough worker turns after the last submission the queue runs empty: every
      accepted task is taken. */
  lemma {:induction false} WorkersDrainTheQueue(p: Pool, turns: nat)
    requires Conserves(p) && |p.queue| <= turns
    ensures Run(p, seq(turns, _ => Working)).taken == p.accepted
    decreases turns
  {
    var events := seq(turns, _ => Working);
    if turns > 0 {
      NextConserves(p, Working);
      assert events[1..] == seq(turns - 1, _ => Working);
      WorkersDrainTheQueue(Next(p, Working), turns - 1);
    }
  }

  // -------- the linked list --------

  class Work {
    const task: Task
    var next: Work?

    constructor (task: Task)
      ensures this.task == task && next == null
    {
      this.task := task;
      next := null;
    }
  }

  function Tasks(nodes: seq<Work>): seq<Task> {
    seq(|nodes|, i requires 0 <= i < |nodes| => nodes[i].task)
  }

  class ThreadPool {
    var head: Work?
    var tail: Work?
    var shutdown: bool
    ghost var nodes: seq<Work> // the list from head to tail
    ghost var accepted: seq<Task>
    ghost var taken: seq<Task>
    ghost var exited: nat

    ghost predicate Valid()
      reads this, nodes
    {
      && (nodes == [] ==> head == null && tail == null)
      && (nodes != [] ==> head == nodes[0] && tail == nodes[|nodes| - 1])
      && (forall i, j | 0 <= i < j < |nodes| :: nodes[i] != nodes[j])
      && (forall i, j | 0 <= i < j < |nodes| && j == i + 1 :: nodes[i].next == nodes[j])
      && (nodes != [] ==> nodes[|nodes| - 1].next == null)
      && Conserves(Abs())
    }

    ghost function Abs(): Pool
      reads this
    {
      Pool(Tasks(nodes), shutdown, accepted, taken, exited)
    }

    constructor ()
      ensures Valid() && Abs() == EMPTY_POOL
    {
      head, tail, shutdown := null, null, false;
      nodes, accepted, taken, exited := [], [], [], 0;
    }

    /** thread_pool_push_locked. */
    method Push(work: Work)
      requires Valid() && !shutdown && work !in nodes
      modifies this, work, nodes
      ensures Valid() && nodes == old(nodes) + [work]
      ensures Abs() == Next(old(Abs()), Submitting(work.task))
    {
      work.next := null;
      if tail == null {
        head := work;
        tail := work;
      } else {
        tail.next := work;
        tail := work;
      }
      NextConserves(old(Abs()), Submitting(work.task));
      nodes := nodes + [work];
      accepted := accepted + [work.task];
      assert Tasks(nodes) == Tasks(old(nodes)) + [work.task];
    }

    /** thread_pool_pop_locked. */
    method Pop() returns (work: Work?)
      requires Valid()
      modifies this, nodes
      ensures Valid()
      ensures work == null <==> old(nodes) == []
      ensures work == null ==> Abs() == old(Abs())
      ensures work != null ==>
                && work == old(nodes)[0] && nodes == old(nodes)[1..] && work.next == null
                && Abs() == Next(old(Abs()), Working)
    {
      work := head;
      if work != null {
        NextConserves(Abs(), Working);
        assert |nodes| > 1 ==> nodes[0].next == nodes[1];
        ghost var rest := nodes[1..];
        assert forall i | 0 <= i < |rest| :: rest[i] == nodes[i + 1] && rest[i] != work;
        assert Tasks(rest) == Tasks(nodes)[1..];
        head := work.next;
        if head == null {
          tail := null;
        }
        work.next := null;
        taken := taken + [work.task];
        nodes := rest;
      }
    }

    /** thread_pool_submit: refused once the shutdown flag is seen under the lock. */
    method Submit(task: Task) returns (ok: bool)
      requires Valid()
      modifies this, nodes
      ensures Valid() && Abs() == Next(old(Abs()), Submitting(task))
      ensures ok == !old(shutdown)
      ensures fresh(set w | w in nodes && w !in old(nodes))
    {
      if shutdown {
        return false;
      }
      var work := new Work(task);
      Push(work);
      return true;
    }

    /** One turn of the worker loop under the lock: exit, take a task, or go on waiting. */
    method WorkerTurn() returns (exit: bool, work: Work?)
      requires Valid()
      modifies this, nodes
      ensures Valid() && Abs() == Next(old(Abs()), Working)
      ensures exit <==> old(nodes) == [] && shutdown
      ensures work != null <==> old(nodes) != []
      ensures work != null ==> work == old(nodes)[0]
    {
      exit, work := false, null;
      if head == null && !shutdown {
        return; // wait for work_available
      }
      if shutdown && head == null {
        exited := exited + 1;
        return true, null;
      }
      work := Pop();
    }

    /** The flag set by thread_pool_destroy. */
    method RequestShutdown()
      requires Valid()
      modifies this
      ensures Valid() && Abs() == Next(old(Abs()), ShuttingDown)
    {
      shutdown := true;
    }
  }
}

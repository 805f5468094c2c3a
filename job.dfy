/** The job system: a FIFO global queue of jobs whose dependencies are the completion
    flags of earlier jobs, drained by the calling thread, and a builder for task graphs. */
module Jobs {
  import opened Common

  datatype JobPriority = Low | Normal | High | Critical
  {
    /** The discriminant of the priority level. */
    function Level(): (n: nat)
      ensures n <= 3
    {
      match this
      case Low => 0
      case Normal => 1
      case High => 2
      case Critical => 3
    }
  }

  /** The priority a job gets when none is given. */
  const DEFAULT_PRIORITY: JobPriority := Normal

  /** What a job body does to the memory cell shared by the jobs of a frame: overwrite it,
      double it, or add to it. The jobs of the engine's own tests are of these three kinds. */
  datatype JobBody = Store(value: int) | Double | Add(amount: int)

  function Apply(body: JobBody, cell: int): int
  {
    match body
    case Store(v) => v
    case Double => 2 * cell
    case Add(n) => cell + n
  }

  /** A handle to a submitted job; its completion flag is the system's `completed[id]`. */
  datatype JobHandle = JobHandle(id: nat)

  /** A queued job: its id, its body, its priority and the ids of the jobs it waits for. */
  datatype JobWrapper = JobWrapper(id: nat, body: JobBody, priority: JobPriority, dependencies: seq<nat>)

  /** `can_execute`: every dependency's completion flag is set. */
  predicate CanExecute(w: JobWrapper, completed: seq<bool>)
  {
    forall k :: 0 <= k < |w.dependencies| ==> w.dependencies[k] < |completed| && completed[w.dependencies[k]]
  }

  function Ids(q: seq<JobWrapper>): (ids: seq<nat>)
    ensures |ids| == |q| && forall k :: 0 <= k < |q| ==> ids[k] == q[k].id
  {
    seq(|q|, k requires 0 <= k < |q| => q[k].id)
  }

  function HandleIds(hs: seq<JobHandle>): (ids: seq<nat>)
    ensures |ids| == |hs| && forall k :: 0 <= k < |hs| ==> ids[k] == hs[k].id
  {
    if hs == [] then [] else [hs[0].id] + HandleIds(hs[1..])
  }

  /** The value of the shared cell after running the jobs of `log`, in order, from `cell`. */
  function RunLog(jobs: seq<JobWrapper>, log: seq<nat>, cell: int): int
    requires forall k :: 0 <= k < |log| ==> log[k] < |jobs|
  {
    if log == [] then cell
    else Apply(jobs[log[|log| - 1]].body, RunLog(jobs, log[..|log| - 1], cell))
  }

  /** Jobs that each add `amount` leave the cell increased by `amount` per job, in any order. */
  lemma {:induction false} RunLogOfAdds(jobs: seq<JobWrapper>, log: seq<nat>, cell: int, amount: int)
    requires forall k :: 0 <= k < |log| ==> log[k] < |jobs|
    requires forall i :: 0 <= i < |jobs| ==> jobs[i].body == Add(amount)
    ensures RunLog(jobs, log, cell) == cell + |log| * amount
  {
    if log != [] {
      RunLogOfAdds(jobs, log[..|log| - 1], cell, amount);
      assert cell + (|log| - 1) * amount + amount == cell + |log| * amount;
    }
  }

  /** Running jobs from a log only looks at the jobs the log names. */
  lemma {:induction false} RunLogFrame(jobs: seq<JobWrapper>, more: seq<JobWrapper>, log: seq<nat>, cell: int)
    requires forall k :: 0 <= k < |log| ==> log[k] < |jobs|
    ensures RunLog(jobs + more, log, cell) == RunLog(jobs, log, cell)
  {
    if log != [] {
      RunLogFrame(jobs, more, log[..|log| - 1], cell);
    }
  }

  /** Index of the first job of `q` that can run, or `|q|` if none can. */
  function FirstReady(q: seq<JobWrapper>, completed: seq<bool>): (k: nat)
    ensures k <= |q|
    ensures k < |q| ==> CanExecute(q[k], completed)
    ensures forall j :: 0 <= j < k ==> !CanExecute(q[j], completed)
  {
    if q == [] then 0 else if CanExecute(q[0], completed) then 0 else 1 + FirstReady(q[1..], completed)
  }

  /** Moving a job that cannot run from the front to the back brings the first runnable job one step closer. */
  lemma {:induction false} FirstReadyRotate(q: seq<JobWrapper>, completed: seq<bool>)
    requires 0 < FirstReady(q, completed) < |q|
    ensures FirstReady(q[1..] + [q[0]], completed) == FirstReady(q, completed) - 1
  {
    var k := FirstReady(q, completed);
    var r := q[1..] + [q[0]];
    assert r[k - 1] == q[k];
    forall j | 0 <= j < k - 1
      ensures !CanExecute(r[j], completed)
    {
      assert r[j] == q[j + 1];
    }
    FirstReadyIsFirst(r, completed, k - 1);
  }

  lemma {:induction false} FirstReadyIsFirst(q: seq<JobWrapper>, completed: seq<bool>, k: nat)
    requires k < |q| && CanExecute(q[k], completed)
    requires forall j :: 0 <= j < k ==> !CanExecute(q[j], completed)
    ensures FirstReady(q, completed) == k
  {
    if k > 0 {
      FirstReadyIsFirst(q[1..], completed, k - 1);
    }
  }

  /** The position of a job with the smallest id. */
  function MinIdIndex(q: seq<JobWrapper>): (k: nat)
    requires |q| > 0
    ensures k < |q| && forall j :: 0 <= j < |q| ==> q[k].id <= q[j].id
  {
    if |q| == 1 then 0
    else
      var k := MinIdIndex(q[1..]);
      if q[0].id <= q[k + 1].id then 0 else k + 1
  }

  /** Job `i` has id `i` and depends only on jobs submitted before it. */
  ghost predicate JobsInv(submitted: seq<JobWrapper>)
  {
    && (forall i :: 0 <= i < |submitted| ==> submitted[i].id == i)
    && (forall i, k :: 0 <= i < |submitted| && 0 <= k < |submitted[i].dependencies| ==>
          submitted[i].dependencies[k] < i)
  }

  /** The queue holds submitted, unfinished jobs, each once. */
  ghost predicate QueueInv(queue: seq<JobWrapper>, submitted: seq<JobWrapper>, completed: seq<bool>)
    requires |completed| == |submitted|
  {
    && (forall k :: 0 <= k < |queue| ==>
          queue[k].id < |submitted| && submitted[queue[k].id] == queue[k] && !completed[queue[k].id])
    && (forall a, b :: 0 <= a < b < |queue| ==> queue[a].id != queue[b].id)
  }

  /** Some queued job has id `i`. */
  predicate Queued(queue: seq<JobWrapper>, i: nat)
  {
    exists k :: 0 <= k < |queue| && queue[k].id == i
  }

  /** No job is lost: every job has either run or is still queued. */
  ghost predicate NothingLost(queue: seq<JobWrapper>, completed: seq<bool>)
  {
    forall i :: 0 <= i < |completed| ==> completed[i] || Queued(queue, i)
  }

  /** The log lists the completed jobs, each once, every job after its dependencies. */
  ghost predicate LogInv(log: seq<nat>, submitted: seq<JobWrapper>, completed: seq<bool>)
    requires |completed| == |submitted|
  {
    && NoDuplicates(log)
    && (forall k :: 0 <= k < |log| ==> log[k] < |submitted|)
    && (forall i :: 0 <= i < |completed| ==> (completed[i] <==> i in log))
    && (forall k, j :: 0 <= k < |log| && 0 <= j < |submitted[log[k]].dependencies| ==>
          submitted[log[k]].dependencies[j] in log[..k])
  }

  /** Appending a new job with older dependencies keeps the invariants. */
  lemma SubmitKeepsInv(queue: seq<JobWrapper>, submitted: seq<JobWrapper>, completed: seq<bool>,
                       log: seq<nat>, w: JobWrapper)
    requires |completed| == |submitted| && JobsInv(submitted)
    requires QueueInv(queue, submitted, completed) && NothingLost(queue, completed)
    requires LogInv(log, submitted, completed)
    requires w.id == |submitted| && forall k :: 0 <= k < |w.dependencies| ==> w.dependencies[k] < w.id
    ensures JobsInv(submitted + [w])
    ensures QueueInv(queue + [w], submitted + [w], completed + [false])
    ensures NothingLost(queue + [w], completed + [false])
    ensures LogInv(log, submitted + [w], completed + [false])
    ensures forall k :: 0 <= k < |log| ==> (submitted + [w])[log[k]] == submitted[log[k]]
  {
    var q := queue + [w];
    forall i | 0 <= i < |completed| + 1 && !(completed + [false])[i]
      ensures Queued(q, i)
    {
      if i < |completed| {
        var k :| 0 <= k < |queue| && queue[k].id == i;
        assert q[k] == queue[k];
      } else {
        assert q[|queue|] == w;
      }
    }
    assert forall k :: 0 <= k < |log| ==> log[k] != w.id;
  }

  /** Running the front job, whose dependencies have completed, keeps the invariants. */
  lemma RunFrontKeepsInv(queue: seq<JobWrapper>, submitted: seq<JobWrapper>, completed: seq<bool>,
                         log: seq<nat>)
    requires |completed| == |submitted| && JobsInv(submitted)
    requires QueueInv(queue, submitted, completed) && NothingLost(queue, completed)
    requires LogInv(log, submitted, completed)
    requires queue != [] && CanExecute(queue[0], completed)
    ensures var w := queue[0];
      && QueueInv(queue[1..], submitted, completed[w.id := true])
      && NothingLost(queue[1..], completed[w.id := true])
      && LogInv(log + [w.id], submitted, completed[w.id := true])
      && (log + [w.id])[..|log|] == log
  {
    var w := queue[0];
    var completed' := completed[w.id := true];
    var log' := log + [w.id];
    forall i | 0 <= i < |completed'| && !completed'[i]
      ensures Queued(queue[1..], i)
    {
      var k :| 0 <= k < |queue| && queue[k].id == i;
      assert k != 0;
      assert queue[1..][k - 1] == queue[k];
    }
    assert w.id !in log;
    assert log'[..|log|] == log;
    forall k, j | 0 <= k < |log'| && 0 <= j < |submitted[log'[k]].dependencies|
      ensures submitted[log'[k]].dependencies[j] in log'[..k]
    {
      if k < |log| {
        assert log'[..k] == log[..k];
      } else {
        assert submitted[log'[k]] == w;
        assert log'[..k] == log;
      }
    }
  }

  /** Running the front job moves its id from the queue to the end of the log. */
  lemma PopKeepsIds(queue: seq<JobWrapper>, log: seq<nat>)
    requires queue != []
    ensures multiset(Ids(queue[1..])) + multiset((log + [queue[0].id])[|log|..]) == multiset(Ids(queue))
  {
    var ids := Ids(queue);
    assert Ids(queue[1..]) == ids[1..];
    assert ids == [ids[0]] + ids[1..];
    assert (log + [queue[0].id])[|log|..] == [ids[0]];
  }

  /** One more step of a run keeps the account of queued and executed ids. */
  lemma LogStep(q: seq<nat>, q': seq<nat>, l: seq<nat>, l': seq<nat>, n0: nat, orig: multiset<nat>)
    requires n0 <= |l| <= |l'| && l'[..|l|] == l
    requires multiset(q) + multiset(l[n0..]) == orig
    requires multiset(q') + multiset(l'[|l|..]) == multiset(q)
    ensures multiset(q') + multiset(l'[n0..]) == orig
    ensures l'[..n0] == l[..n0]
  {
    assert l'[n0..] == l[n0..] + l'[|l|..];
  }

  lemma SliceOfAppend<T>(s: seq<T>, x: T, n: nat)
    requires n <= |s|
    ensures (s + [x])[n..] == s[n..] + [x] && (s + [x])[..n] == s[..n]
  {
  }

  /** Sending the front job to the back keeps the multiset of queued ids. */
  lemma RotateKeepsIds(queue: seq<JobWrapper>)
    requires queue != []
    ensures multiset(Ids(queue[1..] + [queue[0]])) == multiset(Ids(queue))
  {
    var ids := Ids(queue);
    assert Ids(queue[1..] + [queue[0]]) == ids[1..] + [ids[0]];
    assert ids == [ids[0]] + ids[1..];
  }

  /** Sending the front job to the back keeps the invariants. */
  lemma RequeueKeepsInv(queue: seq<JobWrapper>, submitted: seq<JobWrapper>, completed: seq<bool>)
    requires |completed| == |submitted|
    requires QueueInv(queue, submitted, completed) && NothingLost(queue, completed)
    requires queue != []
    ensures QueueInv(queue[1..] + [queue[0]], submitted, completed)
    ensures NothingLost(queue[1..] + [queue[0]], completed)
  {
    var q := queue[1..] + [queue[0]];
    forall a, b | 0 <= a < b < |q|
      ensures q[a].id != q[b].id
    {
      var a0 := if a < |q| - 1 then a + 1 else 0;
      var b0 := if b < |q| - 1 then b + 1 else 0;
      assert q[a] == queue[a0] && q[b] == queue[b0];
    }
    forall k | 0 <= k < |q|
      ensures q[k] in queue
    {
    }
    forall i | 0 <= i < |completed| && !completed[i]
      ensures Queued(q, i)
    {
      var k :| 0 <= k < |queue| && queue[k].id == i;
      var k' := if k == 0 then |q| - 1 else k - 1;
      assert q[k'] == queue[k];
    }
  }

  /** The queued job with the smallest id depends only on smaller ids, none of which is
      still queued, so it can run: the queue never deadlocks. */
  lemma SomeQueuedJobCanRun(queue: seq<JobWrapper>, submitted: seq<JobWrapper>, completed: seq<bool>)
    requires |completed| == |submitted| && JobsInv(submitted)
    requires QueueInv(queue, submitted, completed) && NothingLost(queue, completed)
    requires queue != []
    ensures FirstReady(queue, completed) < |queue|
  {
    var m := MinIdIndex(queue);
    var w := queue[m];
    forall k | 0 <= k < |w.dependencies|
      ensures w.dependencies[k] < |completed| && completed[w.dependencies[k]]
    {
      var d := w.dependencies[k];
      assert d < w.id;
      assert !Queued(queue, d);
    }
    assert CanExecute(w, completed);
  }

  /** The invariant of a job system's state. */
  ghost predicate SystemInv(jobCounter: nat, queue: seq<JobWrapper>, completed: seq<bool>,
                            submitted: seq<JobWrapper>, log: seq<nat>, cell: int, initialCell: int)
  {
    && |completed| == jobCounter == |submitted|
    && |log| + |queue| == jobCounter
    && JobsInv(submitted)
    && QueueInv(queue, submitted, completed)
    && NothingLost(queue, completed)
    && LogInv(log, submitted, completed)
    && cell == RunLog(submitted, log, initialCell)
  }

  class JobSystem {
    const numWorkers: nat
    /** The global queue, front first. */
    var queue: seq<JobWrapper>
    /** The completion flag of every job submitted so far, by id. */
    var completed: seq<bool>
    var jobCounter: nat
    /** The memory cell the job bodies act on. */
    var cell: int
    /** Every job submitted so far, by id. */
    ghost var submitted: seq<JobWrapper>
    /** The ids of the jobs executed so far, in execution order. */
    ghost var log: seq<nat>
    /** The value of the cell before any job ran. */
    ghost const initialCell: int

    ghost predicate Valid()
      reads this
    {
      SystemInv(jobCounter, queue, completed, submitted, log, cell, initialCell)
    }

    constructor (numWorkers: nat, cell: int)
      ensures Valid()
      ensures this.numWorkers == Max(numWorkers, 1)
      ensures queue == [] && completed == [] && jobCounter == 0 && this.cell == cell
      ensures log == [] && submitted == [] && initialCell == cell
    {
      this.numWorkers := Max(numWorkers, 1);
      queue := [];
      completed := [];
      jobCounter := 0;
      this.cell := cell;
      submitted := [];
      log := [];
      initialCell := cell;
    }

    function NumWorkers(): (n: nat)
      ensures n >= 1
    {
      Max(numWorkers, 1)
    }

    predicate IsComplete(h: JobHandle)
      reads this
    {
      h.id < |completed| && completed[h.id]
    }

    /** The number of jobs ever submitted (what `pending_jobs` reports). */
    function PendingJobs(): (n: nat)
      reads this
      requires Valid()
      ensures n == |submitted| == |log| + |queue|
    {
      jobCounter
    }

    /** The cell holds what running the logged jobs in order makes of its first value. */
    lemma CellIsRunOfLog()
      requires Valid()
      ensures forall k :: 0 <= k < |log| ==> log[k] < |submitted|
      ensures cell == RunLog(submitted, log, initialCell)
    {
    }

    /** Under `Valid`, the job with the smallest queued id can run: all of its
        dependencies are older, hence no longer queued, hence complete. */
    lemma SomeJobCanRun()
      requires Valid() && queue != []
      ensures FirstReady(queue, completed) < |queue|
    {
      SomeQueuedJobCanRun(queue, submitted, completed);
    }

    method Submit(body: JobBody, priority: JobPriority) returns (h: JobHandle)
      requires Valid()
      modifies this
      ensures Valid()
      ensures h.id == old(jobCounter) && jobCounter == old(jobCounter) + 1 && !IsComplete(h)
      ensures queue == old(queue) + [JobWrapper(h.id, body, priority, [])]
      ensures completed == old(completed) + [false]
      ensures submitted == old(submitted) + [JobWrapper(h.id, body, priority, [])]
      ensures log == old(log) && cell == old(cell)
    {
      h := SubmitWithDeps(body, priority, []);
    }

    /** `submit_fn`: a closure job with a name; the name is not kept by the queue. */
    method SubmitFn(name: string, priority: JobPriority, body: JobBody) returns (h: JobHandle)
      requires Valid()
      modifies this
      ensures Valid()
      ensures h.id == old(jobCounter) && jobCounter == old(jobCounter) + 1 && !IsComplete(h)
      ensures queue == old(queue) + [JobWrapper(h.id, body, priority, [])]
      ensures completed == old(completed) + [false]
      ensures submitted == old(submitted) + [JobWrapper(h.id, body, priority, [])]
      ensures log == old(log) && cell == old(cell)
    {
      h := Submit(body, priority);
    }

    /** Queues a job that may run only once every job of `dependencies` has completed.
        The handles must have been issued by this system. */
    method SubmitWithDeps(body: JobBody, priority: JobPriority, dependencies: seq<JobHandle>)
      returns (h: JobHandle)
      requires Valid()
      requires forall k :: 0 <= k < |dependencies| ==> dependencies[k].id < jobCounter
      modifies this
      ensures Valid()
      ensures h.id == old(jobCounter) && jobCounter == old(jobCounter) + 1 && !IsComplete(h)
      ensures queue == old(queue) + [JobWrapper(h.id, body, priority, HandleIds(dependencies))]
      ensures completed == old(completed) + [false]
      ensures submitted == old(submitted) + [JobWrapper(h.id, body, priority, HandleIds(dependencies))]
      ensures log == old(log) && cell == old(cell)
    {
      var id := jobCounter;
      var w := JobWrapper(id, body, priority, HandleIds(dependencies));
      SubmitKeepsInv(queue, submitted, completed, log, w);
      RunLogFrame(submitted, [w], log, initialCell);
      jobCounter := jobCounter + 1;
      completed := completed + [false];
      queue := queue + [w];
      submitted := submitted + [w];
      h := JobHandle(id);
    }

    /** Runs the job at the front of the queue, which must be able to run. */
    method RunFront()
      requires Valid() && queue != [] && CanExecute(queue[0], completed)
      modifies this
      ensures Valid()
      ensures queue == old(queue[1..])
      ensures log == old(log) + [old(queue[0].id)]
      ensures multiset(Ids(queue)) + multiset(log[old(|log|)..]) == old(multiset(Ids(queue)))
      ensures completed == old(completed[queue[0].id := true])
      ensures cell == Apply(old(queue[0].body), old(cell))
      ensures jobCounter == old(jobCounter) && submitted == old(submitted)
    {
      var w := queue[0];
      PopKeepsIds(queue, log);
      RunFrontKeepsInv(queue, submitted, completed, log);
      cell := Apply(w.body, cell);
      completed := completed[w.id := true];
      log := log + [w.id];
      queue := queue[1..];
    }

    /** Moves the job at the front of the queue, which cannot run yet, to the back. */
    method Requeue()
      requires Valid() && queue != [] && !CanExecute(queue[0], completed)
      modifies this
      ensures Valid()
      ensures queue == old(queue[1..] + [queue[0]])
      ensures multiset(Ids(queue)) == old(multiset(Ids(queue)))
      ensures FirstReady(queue, completed) == old(FirstReady(queue, completed)) - 1
      ensures log == old(log) && completed == old(completed) && cell == old(cell)
      ensures jobCounter == old(jobCounter) && submitted == old(submitted)
    {
      SomeQueuedJobCanRun(queue, submitted, completed);
      FirstReadyRotate(queue, completed);
      RequeueKeepsInv(queue, submitted, completed);
      RotateKeepsIds(queue);
      queue := queue[1..] + [queue[0]];
    }

    /** Takes the job at the front of the queue and runs it if its dependencies have
        completed; otherwise pushes it back at the end of the queue. */
    method StealOne() returns (ran: bool)
      requires Valid() && queue != []
      modifies this
      ensures Valid()
      ensures ran == old(CanExecute(queue[0], completed))
      ensures ran ==> queue == old(queue[1..])
      ensures !ran ==> queue == old(queue[1..] + [queue[0]])
      ensures !ran ==> FirstReady(queue, completed) == old(FirstReady(queue, completed)) - 1
      ensures log == old(log) + (if ran then [old(queue[0].id)] else [])
      ensures multiset(Ids(queue)) + multiset(log[old(|log|)..]) == old(multiset(Ids(queue)))
      ensures jobCounter == old(jobCounter) && submitted == old(submitted)
    {
      if CanExecute(queue[0], completed) {
        RunFront();
        ran := true;
      } else {
        Requeue();
        ran := false;
      }
    }

    /** Runs up to `maxJobs` jobs from the front of the queue, sending back to the end
        every job whose dependencies have not all completed. */
    method ProcessJobs(maxJobs: nat) returns (processed: nat)
      requires Valid()
      modifies this
      ensures Valid()
      ensures processed == Min(maxJobs, old(|queue|))
      ensures |queue| == old(|queue|) - processed
      ensures |log| == old(|log|) + processed && log[..old(|log|)] == old(log)
      ensures multiset(Ids(queue)) + multiset(log[old(|log|)..]) == old(multiset(Ids(queue)))
      ensures jobCounter == old(jobCounter) && submitted == old(submitted)
    {
      processed := 0;
      ghost var n0, l0, orig := |log|, log, multiset(Ids(queue));
      while processed < maxJobs
        invariant Valid()
        invariant processed <= maxJobs
        invariant |queue| + processed == old(|queue|)
        invariant |log| == n0 + processed && log[..n0] == l0
        invariant multiset(Ids(queue)) + multiset(log[n0..]) == orig
        invariant jobCounter == old(jobCounter) && submitted == old(submitted)
        decreases maxJobs - processed, FirstReady(queue, completed)
      {
        if queue == [] {
          break;
        }
        SomeJobCanRun();
        ghost var prevLog, prevIds := log, Ids(queue);
        var ran := StealOne();
        LogStep(prevIds, Ids(queue), prevLog, log, n0, orig);
        if ran {
          processed := processed + 1;
        }
      }
    }

    /** Runs jobs until the job of `h` has completed. */
    method WaitFor(h: JobHandle)
      requires Valid() && h.id < jobCounter
      modifies this
      ensures Valid() && IsComplete(h)
      ensures |log| >= old(|log|) && log[..old(|log|)] == old(log)
      ensures jobCounter == old(jobCounter) && submitted == old(submitted)
    {
      while !completed[h.id]
        invariant Valid()
        invariant |log| >= old(|log|) && log[..old(|log|)] == old(log)
        invariant jobCounter == old(jobCounter) && submitted == old(submitted)
        decreases |queue|
      {
        assert Queued(queue, h.id);
        ghost var prevLog := log;
        var n := ProcessJobs(1);
        assert log[..old(|log|)] == prevLog[..old(|log|)];
        if n == 0 {
          // the thread yields; the queue is never empty here
        }
      }
    }

    /** Runs jobs until the queue is empty; afterwards every submitted job has completed. */
    method WaitAll()
      requires Valid()
      modifies this
      ensures Valid() && queue == []
      ensures forall i :: 0 <= i < jobCounter ==> completed[i]
      ensures |log| == jobCounter && |log| >= old(|log|) && log[..old(|log|)] == old(log)
      ensures jobCounter == old(jobCounter) && submitted == old(submitted)
    {
      while queue != []
        invariant Valid()
        invariant |log| >= old(|log|) && log[..old(|log|)] == old(log)
        invariant jobCounter == old(jobCounter) && submitted == old(submitted)
        decreases |queue|
      {
        ghost var prevLog := log;
        var n := ProcessJobs(16);
        assert log[..old(|log|)] == prevLog[..old(|log|)];
      }
    }
  }

  /** A task of a task graph: its body, its priority and the indices of the tasks it depends on. */
  datatype Task = Task(body: JobBody, priority: JobPriority, dependencies: seq<nat>)

  /** The handles `execute` passes for a task's dependency indices: those that name an
      already-submitted task (an index below `|handles|`), in order. */
  function DependencyHandles(dependencies: seq<nat>, handles: seq<JobHandle>): (r: seq<JobHandle>)
    ensures forall h :: h in r <==> exists k :: 0 <= k < |dependencies| && dependencies[k] < |handles|
                                               && h == handles[dependencies[k]]
  {
    if dependencies == [] then []
    else
      var rest := DependencyHandles(dependencies[1..], handles);
      assert forall k :: 1 <= k < |dependencies| ==> dependencies[k] == dependencies[1..][k - 1];
      if dependencies[0] < |handles| then [handles[dependencies[0]]] + rest else rest
  }

  /** The queued form of task `i` of a graph whose first job gets id `base`: each
      dependency index below `i` becomes the id of that task's job; the others are dropped. */
  function TaskJob(t: Task, i: nat, base: nat): JobWrapper
  {
    JobWrapper(base + i, t.body, t.priority, KeptDependencies(t.dependencies, i, base))
  }

  /** The queued forms of the first `n` tasks. */
  function TaskJobs(tasks: seq<Task>, n: nat, base: nat): (r: seq<JobWrapper>)
    requires n <= |tasks|
    ensures |r| == n && forall i :: 0 <= i < n ==> r[i] == TaskJob(tasks[i], i, base)
  {
    seq(n, i requires 0 <= i < n => TaskJob(tasks[i], i, base))
  }

  lemma TaskJobsStep(tasks: seq<Task>, i: nat, base: nat, before: seq<JobWrapper>)
    requires i < |tasks|
    ensures before + TaskJobs(tasks, i + 1, base) == (before + TaskJobs(tasks, i, base)) + [TaskJob(tasks[i], i, base)]
  {
    assert TaskJobs(tasks, i + 1, base) == TaskJobs(tasks, i, base) + [TaskJob(tasks[i], i, base)];
  }

  function KeptDependencies(dependencies: seq<nat>, i: nat, base: nat): (r: seq<nat>)
    ensures forall x :: x in r <==> exists k :: 0 <= k < |dependencies| && dependencies[k] < i
                                               && x == base + dependencies[k]
    ensures forall x :: x in r ==> base <= x < base + i
  {
    if dependencies == [] then []
    else
      var rest := KeptDependencies(dependencies[1..], i, base);
      assert forall k :: 1 <= k < |dependencies| ==> dependencies[k] == dependencies[1..][k - 1];
      if dependencies[0] < i then [base + dependencies[0]] + rest else rest
  }

  /** With the handles of tasks `0..i-1` at ids `base..base+i-1`, the handles `execute`
      passes are those of the kept dependency ids. */
  lemma {:induction false} DependencyHandlesAreKept(dependencies: seq<nat>, handles: seq<JobHandle>, base: nat)
    requires forall k :: 0 <= k < |handles| ==> handles[k].id == base + k
    ensures HandleIds(DependencyHandles(dependencies, handles)) == KeptDependencies(dependencies, |handles|, base)
  {
    if dependencies != [] {
      DependencyHandlesAreKept(dependencies[1..], handles, base);
    }
  }

  class TaskGraphBuilder {
    var tasks: seq<Task>

    constructor ()
      ensures tasks == []
    {
      tasks := [];
    }

    method AddTask(body: JobBody, priority: JobPriority) returns (index: nat)
      modifies this
      ensures index == old(|tasks|) && tasks == old(tasks) + [Task(body, priority, [])]
    {
      index := |tasks|;
      tasks := tasks + [Task(body, priority, [])];
    }

    /** Records that `task` depends on `dependsOn`; ignored unless both name existing tasks. */
    method AddDependency(task: nat, dependsOn: nat)
      modifies this
      ensures task < old(|tasks|) && dependsOn < old(|tasks|) ==>
        tasks == old(tasks[task := tasks[task].(dependencies := tasks[task].dependencies + [dependsOn])])
      ensures !(task < old(|tasks|) && dependsOn < old(|tasks|)) ==> tasks == old(tasks)
    {
      if task < |tasks| && dependsOn < |tasks| {
        tasks := tasks[task := tasks[task].(dependencies := tasks[task].dependencies + [dependsOn])];
      }
    }

    /** Submits the tasks in order; task `i` becomes the job with id `base + i`. */
    method Execute(jobSystem: JobSystem) returns (handles: seq<JobHandle>)
      requires jobSystem.Valid()
      modifies jobSystem
      ensures jobSystem.Valid()
      ensures |handles| == |tasks|
      ensures forall i :: 0 <= i < |tasks| ==> handles[i].id == old(jobSystem.jobCounter) + i
      ensures jobSystem.jobCounter == old(jobSystem.jobCounter) + |tasks|
      ensures jobSystem.queue == old(jobSystem.queue) + TaskJobs(tasks, |tasks|, old(jobSystem.jobCounter))
      ensures jobSystem.submitted == old(jobSystem.submitted) + TaskJobs(tasks, |tasks|, old(jobSystem.jobCounter))
      ensures jobSystem.log == old(jobSystem.log) && jobSystem.cell == old(jobSystem.cell)
    {
      var base := jobSystem.jobCounter;
      handles := [];
      var i := 0;
      while i < |tasks|
        invariant 0 <= i <= |tasks|
        invariant jobSystem.Valid()
        invariant |handles| == i && forall k :: 0 <= k < i ==> handles[k].id == base + k
        invariant jobSystem.jobCounter == base + i
        invariant jobSystem.queue == old(jobSystem.queue) + TaskJobs(tasks, i, base)
        invariant jobSystem.submitted == old(jobSystem.submitted) + TaskJobs(tasks, i, base)
        invariant jobSystem.log == old(jobSystem.log) && jobSystem.cell == old(jobSystem.cell)
      {
        var t := tasks[i];
        ghost var prevQueue, prevSubmitted := jobSystem.queue, jobSystem.submitted;
        var h;
        if t.dependencies == [] {
          h := jobSystem.Submit(t.body, t.priority);
        } else {
          var depHandles := DependencyHandles(t.dependencies, handles);
          DependencyHandlesAreKept(t.dependencies, handles, base);
          forall k | 0 <= k < |depHandles|
            ensures depHandles[k].id < jobSystem.jobCounter
          {
            assert depHandles[k].id in KeptDependencies(t.dependencies, i, base);
          }
          h := jobSystem.SubmitWithDeps(t.body, t.priority, depHandles);
        }
        assert jobSystem.queue == prevQueue + [TaskJob(t, i, base)];
        assert jobSystem.submitted == prevSubmitted + [TaskJob(t, i, base)];
        TaskJobsStep(tasks, i, base, old(jobSystem.queue));
        TaskJobsStep(tasks, i, base, old(jobSystem.submitted));
        handles := handles + [h];
        i := i + 1;
      }
    }
  }

  /** Submits a job storing 10 and a job doubling the cell that depends on
      it, and waits for the second: both ran, the dependency first. */
  method RunStoreThenDouble() returns (js: JobSystem)
    ensures js.Valid() && js.initialCell == 0 && js.log == [0, 1]
    ensures |js.submitted| == 2 && js.submitted[0].body == Store(10) && js.submitted[1].body == Double
  {
    js := new JobSystem(2, 0);
    var h1 := js.SubmitFn("set", Normal, Store(10));
    var h2 := js.SubmitWithDeps(Double, Normal, [h1]);
    js.WaitFor(h2);
    assert 1 in js.log;
    ghost var k :| 0 <= k < |js.log| && js.log[k] == 1;
    assert js.submitted[1].dependencies == [0];
    assert 0 in js.log[..k];
    assert |js.log| == 2;
    assert js.log == [0, 1];
  }

  /** A job that doubles the cell and depends on a job storing 10 finds 10 there. */
  method DependencyScenario()
  {
    var js := RunStoreThenDouble();
    js.CellIsRunOfLog();
    assert js.log[..1] == [0];
    assert RunLog(js.submitted, [0], 0) == 10;
    assert js.cell == 20;
  }

  /** Submits, through a task graph, a chain of three tasks that each add one. */
  method SubmitCountingChain(js: JobSystem)
    requires js.Valid() && js.jobCounter == 0
    modifies js
    ensures js.Valid() && |js.submitted| == 3
    ensures forall i :: 0 <= i < 3 ==> js.submitted[i].body == Add(1)
  {
    var graph := new TaskGraphBuilder();
    var t1 := graph.AddTask(Add(1), Normal);
    var t2 := graph.AddTask(Add(1), Normal);
    var t3 := graph.AddTask(Add(1), Normal);
    graph.AddDependency(t2, t1);
    graph.AddDependency(t3, t2);
    ghost var tasks := graph.tasks;
    assert forall i :: 0 <= i < 3 ==> tasks[i].body == Add(1);
    var handles := graph.Execute(js);
    assert js.submitted == TaskJobs(tasks, 3, 0);
  }

  /** A chain of three counting tasks increments the counter three times. */
  method TaskGraphScenario()
  {
    var js := new JobSystem(2, 0);
    SubmitCountingChain(js);
    ghost var jobs := js.submitted;
    js.WaitAll();
    js.CellIsRunOfLog();
    RunLogOfAdds(jobs, js.log, 0, 1);
    assert js.cell == 3;
  }
}

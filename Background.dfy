/** ImageProcessingBackgroundService as a sequential state machine. Each
    method is one atomic step of the producer (EnqueueImage), of the
    coordinator loop of ExecuteAsync, or of one processing task; the
    scheduler that interleaves them is not modelled. */
module Background {
  import opened Common
  import opened ImageProcessing

  /** One queued upload: the buffered stream, the original file name and the identifier. */
  datatype Job = Job(stream: Stream, fileName: string, id: string)

  /** An entry of the coordinator's `processingTasks` list. */
  datatype TrackedTask = TrackedTask(job: Job, completed: bool)

  /** Where the coordinator loop stands: at the outer wait for a signal,
      draining the queue, holding a dequeued job while it waits for a slot,
      or out of the loop after cancellation. */
  datatype Phase = Waiting | Draining | Holding(job: Job) | Stopped

  datatype WaitOutcome = Signalled | Blocked | Cancelled

  const DefaultMaxConcurrentProcessing: int := 3

  /** configuration.GetValue("ImageProcessing:MaxConcurrentProcessing", 3). */
  function MaxConcurrentProcessing(configured: Option<int>): (r: int)
    ensures configured.None? ==> r == DefaultMaxConcurrentProcessing
    ensures configured.Some? ==> r == configured.value
  {
    configured.GetOr(DefaultMaxConcurrentProcessing)
  }

  /** The jobs of the tasks that have not completed, in list order. */
  function RunningJobs(ts: seq<TrackedTask>): seq<Job> {
    if ts == [] then []
    else (if ts[0].completed then [] else [ts[0].job]) + RunningJobs(ts[1..])
  }

  /** processingTasks.RemoveAll(t => t.IsCompleted). */
  function Pruned(ts: seq<TrackedTask>): seq<TrackedTask> {
    if ts == [] then []
    else (if ts[0].completed then [] else [ts[0]]) + Pruned(ts[1..])
  }

  function Held(p: Phase): seq<Job> {
    if p.Holding? then [p.job] else []
  }

  lemma {:induction false} PrunedKeepsRunning(ts: seq<TrackedTask>)
    ensures forall i :: 0 <= i < |Pruned(ts)| ==> !Pruned(ts)[i].completed
    ensures RunningJobs(Pruned(ts)) == RunningJobs(ts)
  {
    if ts != [] {
      PrunedKeepsRunning(ts[1..]);
      if !ts[0].completed {
        assert Pruned(ts) == [ts[0]] + Pruned(ts[1..]);
        assert Pruned(ts)[0] == ts[0] && Pruned(ts)[1..] == Pruned(ts[1..]);
        assert RunningJobs(Pruned(ts)) == [ts[0].job] + RunningJobs(Pruned(ts)[1..]);
        assert RunningJobs(ts) == [ts[0].job] + RunningJobs(ts[1..]);
      } else {
        assert Pruned(ts) == Pruned(ts[1..]);
        assert RunningJobs(ts) == RunningJobs(ts[1..]);
      }
    }
  }

  lemma {:induction false} RunningJobsAppend(ts: seq<TrackedTask>, t: TrackedTask)
    ensures RunningJobs(ts + [t]) == RunningJobs(ts) + (if t.completed then [] else [t.job])
  {
    if ts == [] {
      assert [t][1..] == [];
    } else {
      assert (ts + [t])[1..] == ts[1..] + [t];
      RunningJobsAppend(ts[1..], t);
    }
  }

  lemma {:induction false} RunningJobsComplete(ts: seq<TrackedTask>, k: nat)
    requires k < |ts| && !ts[k].completed
    ensures multiset(RunningJobs(ts[k := ts[k].(completed := true)])) ==
            multiset(RunningJobs(ts)) - multiset{ts[k].job}
    ensures ts[k].job in multiset(RunningJobs(ts))
  {
    var ts' := ts[k := ts[k].(completed := true)];
    if k == 0 {
      assert ts'[1..] == ts[1..];
    } else {
      assert ts'[1..] == ts[1..][k - 1 := ts[k].(completed := true)];
      RunningJobsComplete(ts[1..], k - 1);
    }
  }

  /** The coordinator's whole state: the real fields of the service and of
      ExecuteAsync, and the history that the invariant speaks about. */
  datatype Coordinator = Coordinator(
    maxConcurrent: nat,
    queue: seq<Job>,
    available: nat,
    freeSlots: nat,
    tasks: seq<TrackedTask>,
    phase: Phase,
    cancelled: bool,
    enqueued: seq<Job>,
    dequeued: seq<Job>,
    dispatched: seq<Job>,
    disposed: seq<Job>,
    lost: seq<Job>,
    waits: nat)

  /** Every slot is free or held by a running task. */
  ghost predicate SlotsAccounted(s: Coordinator) {
    s.freeSlots + |RunningJobs(s.tasks)| == s.maxConcurrent
  }

  /** Dequeued jobs followed by queued ones are the enqueued ones, in order;
      each dequeued job was dispatched, is held, or was dropped at cancellation. */
  ghost predicate Fifo(s: Coordinator) {
    && s.dequeued + s.queue == s.enqueued
    && s.dequeued == s.dispatched + Held(s.phase) + s.lost
    && (s.lost != [] ==> s.phase == Stopped && |s.lost| == 1)
  }

  /** Each dispatched job is running or has been disposed, exactly once. */
  ghost predicate Disposal(s: Coordinator) {
    multiset(s.dispatched) == multiset(s.disposed) + multiset(RunningJobs(s.tasks))
  }

  /** Each signal came from one enqueue and is consumed by one outer wait, and
      at the outer wait every queued job still has its signal (no lost wake-up). */
  ghost predicate Signals(s: Coordinator) {
    && s.waits <= |s.enqueued| && s.available == |s.enqueued| - s.waits
    && (s.phase == Waiting ==> |s.queue| <= s.available)
  }

  ghost predicate Inv(s: Coordinator) {
    SlotsAccounted(s) && Fifo(s) && Disposal(s) && Signals(s)
  }

  // ------------------------------------------------------------- the steps

  /** The constructor together with the start of ExecuteAsync. */
  function Initial(maxConcurrent: nat): Coordinator {
    Coordinator(maxConcurrent, [], 0, maxConcurrent, [], Waiting, false, [], [], [], [], [], 0)
  }

  /** EnqueueImage: append at the back and release one signal. */
  function Enqueue(s: Coordinator, job: Job): Coordinator {
    s.(queue := s.queue + [job], available := s.available + 1, enqueued := s.enqueued + [job])
  }

  /** A run of EnqueueImage calls, one per job, in order. */
  function EnqueueAll(s: Coordinator, jobs: seq<Job>): Coordinator
    decreases |jobs|
  {
    if jobs == [] then s else Enqueue(EnqueueAll(s, jobs[..|jobs| - 1]), jobs[|jobs| - 1])
  }

  /** `await _processingSemaphore.WaitAsync(stoppingToken)`: a cancelled
      token ends the loop, no signal blocks, otherwise one signal is taken. */
  function WaitSignal(s: Coordinator): (WaitOutcome, Coordinator)
    requires s.phase == Waiting
  {
    if s.cancelled then (Cancelled, s.(phase := Stopped))
    else if s.available == 0 then (Blocked, s)
    else (Signalled, s.(available := s.available - 1, waits := s.waits + 1, phase := Draining))
  }

  /** `_processingQueue.TryDequeue(out var item)`: the head is taken; an empty
      queue ends the drain and the loop condition is checked again. */
  function Dequeue(s: Coordinator): (Option<Job>, Coordinator)
    requires s.phase == Draining
  {
    if s.queue == [] then (None, s.(phase := if s.cancelled then Stopped else Waiting))
    else (Some(s.queue[0]), s.(queue := s.queue[1..], dequeued := s.dequeued + [s.queue[0]],
                               phase := Holding(s.queue[0])))
  }

  /** `await semaphore.WaitAsync(stoppingToken)`, then the task is started,
      added to the list, and completed tasks are pruned. A cancelled token
      throws before a slot is taken and the held job is dropped. */
  function Dispatch(s: Coordinator): (WaitOutcome, Coordinator)
    requires s.phase.Holding?
  {
    var job := s.phase.job;
    if s.cancelled then (Cancelled, s.(phase := Stopped, lost := s.lost + [job]))
    else if s.freeSlots == 0 then (Blocked, s)
    else (Signalled, s.(freeSlots := s.freeSlots - 1,
                        tasks := Pruned(s.tasks + [TrackedTask(job, false)]),
                        dispatched := s.dispatched + [job],
                        phase := Draining))
  }

  /** The `finally` of a task, whatever its outcome: the stream is disposed
      and the slot released. */
  function TaskDone(s: Coordinator, k: nat): Coordinator
    requires k < |s.tasks| && !s.tasks[k].completed
  {
    s.(tasks := s.tasks[k := s.tasks[k].(completed := true)],
       disposed := s.disposed + [s.tasks[k].job],
       freeSlots := s.freeSlots + 1)
  }

  // ------------------------------------------------------------- the invariant

  lemma InitialInv(maxConcurrent: nat)
    ensures Inv(Initial(maxConcurrent))
  {
  }

  lemma EnqueueInv(s: Coordinator, job: Job)
    requires Inv(s)
    ensures Inv(Enqueue(s, job))
  {
    assert s.dequeued + (s.queue + [job]) == (s.dequeued + s.queue) + [job];
  }

  lemma WaitSignalInv(s: Coordinator)
    requires Inv(s) && s.phase == Waiting
    ensures Inv(WaitSignal(s).1)
  {
  }

  lemma DequeueInv(s: Coordinator)
    requires Inv(s) && s.phase == Draining
    ensures Inv(Dequeue(s).1)
  {
    if s.queue != [] {
      var job := s.queue[0];
      assert s.queue == [job] + s.queue[1..];
      assert (s.dequeued + [job]) + s.queue[1..] == s.dequeued + s.queue;
      assert s.lost == [];
    }
  }

  lemma DispatchInv(s: Coordinator)
    requires Inv(s) && s.phase.Holding?
    ensures Inv(Dispatch(s).1)
  {
    if s.cancelled {
      var job := s.phase.job;
      assert s.lost == [];
      assert s.dequeued == s.dispatched + Held(Stopped) + [job];
    } else if s.freeSlots > 0 {
      StartInv(s);
    }
  }

  /** The case of DispatchInv where a slot is free and the job is started. */
  lemma StartInv(s: Coordinator)
    requires Inv(s) && s.phase.Holding? && !s.cancelled && s.freeSlots > 0
    ensures Inv(Dispatch(s).1)
  {
    var job := s.phase.job;
    var s' := Dispatch(s).1;
    var started := s.tasks + [TrackedTask(job, false)];
    RunningJobsAppend(s.tasks, TrackedTask(job, false));
    PrunedKeepsRunning(started);
    assert RunningJobs(s'.tasks) == RunningJobs(s.tasks) + [job];
    assert SlotsAccounted(s');
    assert s.lost == [];
    assert s'.dequeued == s'.dispatched + Held(s'.phase) + s'.lost;
    assert Fifo(s');
    assert multiset(s'.dispatched) == multiset(s.dispatched) + multiset{job};
    assert multiset(RunningJobs(s'.tasks)) == multiset(RunningJobs(s.tasks)) + multiset{job};
    assert Disposal(s');
    assert Signals(s');
  }

  lemma CompleteInv(s: Coordinator, k: nat)
    requires Inv(s) && k < |s.tasks| && !s.tasks[k].completed
    ensures Inv(TaskDone(s, k))
  {
    var s' := TaskDone(s, k);
    var job := s.tasks[k].job;
    RunningJobsComplete(s.tasks, k);
    var before, after := multiset(RunningJobs(s.tasks)), multiset(RunningJobs(s'.tasks));
    assert after == before - multiset{job} && job in before;
    assert |after| == |before| - 1;
    assert SlotsAccounted(s');
    assert multiset(s'.disposed) == multiset(s.disposed) + multiset{job};
    assert Disposal(s');
    assert Fifo(s') && Signals(s');
  }

  /** A run of enqueues appends the jobs to the queue and to the history,
      adds one signal per job, and leaves everything else as it was. */
  lemma {:induction false} EnqueueAllAppends(s: Coordinator, jobs: seq<Job>)
    ensures EnqueueAll(s, jobs) == s.(queue := s.queue + jobs, available := s.available + |jobs|,
                                      enqueued := s.enqueued + jobs)
    decreases |jobs|
  {
    if jobs == [] {
      assert s.queue + jobs == s.queue && s.enqueued + jobs == s.enqueued;
    } else {
      var init := jobs[..|jobs| - 1];
      EnqueueAllAppends(s, init);
      assert s.queue + init + [jobs[|jobs| - 1]] == s.queue + jobs;
      assert s.enqueued + init + [jobs[|jobs| - 1]] == s.enqueued + jobs;
    }
  }

  lemma {:induction false} EnqueueAllInv(s: Coordinator, jobs: seq<Job>)
    requires Inv(s)
    ensures Inv(EnqueueAll(s, jobs))
    decreases |jobs|
  {
    if jobs != [] {
      EnqueueAllInv(s, jobs[..|jobs| - 1]);
      EnqueueInv(EnqueueAll(s, jobs[..|jobs| - 1]), jobs[|jobs| - 1]);
    }
  }

  /** Jobs are dispatched in the order they were enqueued. */
  lemma DispatchIsFifo(s: Coordinator)
    requires Inv(s)
    ensures |s.dispatched| <= |s.enqueued|
    ensures s.dispatched == s.enqueued[..|s.dispatched|]
  {
    assert s.enqueued == s.dispatched + (Held(s.phase) + s.lost + s.queue);
  }

  /** A dispatched job is one that was enqueued, and dispatching never skips
      ahead of a job still queued: the queue is a suffix of what was enqueued. */
  lemma QueueIsSuffix(s: Coordinator)
    requires Inv(s)
    ensures s.queue == s.enqueued[|s.enqueued| - |s.queue|..]
  {
    assert s.enqueued == s.dequeued + s.queue;
  }

  /** Never more tasks in flight than the configured maximum. */
  lemma InFlightBounded(s: Coordinator)
    requires Inv(s)
    ensures |RunningJobs(s.tasks)| <= s.maxConcurrent
  {
  }

  /** Once every task has completed, every slot is free again and every
      dispatched stream has been disposed, each exactly once. */
  lemma {:induction false} AllCompletedReleasesEverything(s: Coordinator)
    requires Inv(s)
    requires forall j :: 0 <= j < |s.tasks| ==> s.tasks[j].completed
    ensures RunningJobs(s.tasks) == []
    ensures s.freeSlots == s.maxConcurrent
    ensures multiset(s.disposed) == multiset(s.dispatched)
  {
    AllCompleted(s.tasks);
  }

  lemma {:induction false} AllCompleted(ts: seq<TrackedTask>)
    requires forall j :: 0 <= j < |ts| ==> ts[j].completed
    ensures RunningJobs(ts) == []
  {
    if ts != [] {
      AllCompleted(ts[1..]);
    }
  }

  // ------------------------------------------------------------- the service

  class ImageProcessingBackgroundService {
    /** _maxConcurrentProcessing, the initial count of the slot semaphore. */
    const maxConcurrent: nat
    /** _processingQueue. */
    var queue: seq<Job>
    /** The count of _processingSemaphore: signals not yet consumed. */
    var available: nat
    /** The count of the slot semaphore: free processing slots. */
    var freeSlots: nat
    /** processingTasks. */
    var tasks: seq<TrackedTask>
    var phase: Phase
    /** stoppingToken.IsCancellationRequested. */
    var cancelled: bool

    ghost var enqueued: seq<Job>
    ghost var dequeued: seq<Job>
    ghost var dispatched: seq<Job>
    ghost var disposed: seq<Job>
    ghost var lost: seq<Job>
    ghost var waits: nat

    ghost function Model(): Coordinator
      reads this
    {
      Coordinator(maxConcurrent, queue, available, freeSlots, tasks, phase, cancelled,
                  enqueued, dequeued, dispatched, disposed, lost, waits)
    }

    ghost predicate Valid()
      reads this
    {
      Inv(Model())
    }

    constructor (configured: Option<int>)
      requires MaxConcurrentProcessing(configured) >= 0
      ensures Valid()
      ensures Model() == Initial(MaxConcurrentProcessing(configured))
    {
      maxConcurrent := MaxConcurrentProcessing(configured);
      queue, available, freeSlots, tasks := [], 0, MaxConcurrentProcessing(configured), [];
      phase, cancelled := Waiting, false;
      enqueued, dequeued, dispatched, disposed, lost, waits := [], [], [], [], [], 0;
      InitialInv(MaxConcurrentProcessing(configured));
    }

    /** EnqueueImage. */
    method EnqueueImage(stream: Stream, fileName: string, id: string)
      requires Valid()
      modifies this
      ensures Valid()
      ensures Model() == Enqueue(old(Model()), Job(stream, fileName, id))
    {
      EnqueueInv(Model(), Job(stream, fileName, id));
      var job := Job(stream, fileName, id);
      queue := queue + [job];
      available := available + 1;
      enqueued := enqueued + [job];
    }

    /** The stopping token is triggered. */
    method Cancel()
      requires Valid()
      modifies this
      ensures Valid()
      ensures Model() == old(Model()).(cancelled := true)
    {
      cancelled := true;
    }

    /** The outer wait of ExecuteAsync. */
    method WaitForSignal() returns (outcome: WaitOutcome)
      requires Valid() && phase == Waiting
      modifies this
      ensures Valid()
      ensures (outcome, Model()) == WaitSignal(old(Model()))
    {
      ghost var next := WaitSignal(Model());
      WaitSignalInv(Model());
      if cancelled {
        phase := Stopped;
        outcome := Cancelled;
      } else if available == 0 {
        outcome := Blocked;
      } else {
        available := available - 1;
        waits := waits + 1;
        phase := Draining;
        outcome := Signalled;
      }
      assert (outcome, Model()) == next;
    }

    /** One TryDequeue of the inner loop. */
    method TryDequeue() returns (taken: Option<Job>)
      requires Valid() && phase == Draining
      modifies this
      ensures Valid()
      ensures (taken, Model()) == Dequeue(old(Model()))
    {
      ghost var next := Dequeue(Model());
      DequeueInv(Model());
      if queue == [] {
        phase := if cancelled then Stopped else Waiting;
        taken := None;
      } else {
        var job := queue[0];
        queue := queue[1..];
        dequeued := dequeued + [job];
        phase := Holding(job);
        taken := Some(job);
      }
      assert (taken, Model()) == next;
    }

    /** The slot wait for the held job, the start of its task and the prune. */
    method AcquireSlotAndDispatch() returns (outcome: WaitOutcome)
      requires Valid() && phase.Holding?
      modifies this
      ensures Valid()
      ensures (outcome, Model()) == Dispatch(old(Model()))
    {
      ghost var next := Dispatch(Model());
      DispatchInv(Model());
      var job := phase.job;
      if cancelled {
        lost := lost + [job];
        phase := Stopped;
        outcome := Cancelled;
      } else if freeSlots == 0 {
        outcome := Blocked;
      } else {
        freeSlots := freeSlots - 1;
        tasks := Pruned(tasks + [TrackedTask(job, false)]);
        dispatched := dispatched + [job];
        phase := Draining;
        outcome := Signalled;
      }
      assert (outcome, Model()) == next;
    }

    /** The task body ProcessImageAsync for tracked task k: the job is
        processed, any exception is caught and only logged, and in `finally`
        the stream is disposed and the slot released. */
    method CompleteTask(k: nat, service: ImageProcessingService, c: Collaborators, now: DateTime)
      returns (succeeded: bool)
      requires Valid() && service.Valid()
      requires k < |tasks| && !tasks[k].completed
      modifies this, service
      ensures Valid() && service.Valid()
      ensures Model() == TaskDone(old(Model()), k)
      ensures var job := old(tasks[k].job);
        var (r, s') := Process(old(service.storage), c, job.stream, job.fileName, job.id, now);
        succeeded == r.Success? && service.storage == s'
    {
      ghost var next := TaskDone(Model(), k);
      CompleteInv(Model(), k);
      var job := tasks[k].job;
      var result := service.ProcessImage(job.stream, job.fileName, job.id, now, c);
      succeeded := result.Success?;
      disposed := disposed + [job];
      freeSlots := freeSlots + 1;
      tasks := tasks[k := tasks[k].(completed := true)];
      assert Model() == next;
    }

    /** `await Task.WhenAll(processingTasks)` after the loop: every task still
        running completes; jobs left in the queue stay unprocessed. */
    method WaitForAll(service: ImageProcessingService, c: Collaborators, now: DateTime)
      requires Valid() && service.Valid() && phase == Stopped
      modifies this, service
      ensures Valid() && service.Valid()
      ensures RunningJobs(tasks) == [] && freeSlots == maxConcurrent
      ensures multiset(disposed) == multiset(dispatched)
      ensures queue == old(queue) && dispatched == old(dispatched) && phase == Stopped
    {
      var i := 0;
      while i < |tasks|
        invariant Valid() && service.Valid() && phase == Stopped
        invariant 0 <= i <= |tasks| && |tasks| == old(|tasks|)
        invariant forall j :: 0 <= j < i ==> tasks[j].completed
        invariant queue == old(queue) && dispatched == old(dispatched)
      {
        if !tasks[i].completed {
          var _ := CompleteTask(i, service, c, now);
        }
        i := i + 1;
      }
      AllCompletedReleasesEverything(Model());
    }
  }
}

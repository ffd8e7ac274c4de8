/**
 What the durable executor guarantees in every run: every interleaving, at store-call
 granularity, of any number of workers and tasks with `enqueue` and `cancel`.
 */
module ExecutorTheorems {
  import opened Wrappers
  import opened StructuredValues
  import opened ExecutorStore
  import opened Executor
  import opened ExecutorInvariant
  import opened Sets

  // ------------------------------------------------------------------ who may change a record

  /** No two tasks in flight work on the same job, and a working task's worker holds the claim. */
  lemma OwnershipIsExclusive(s: System, t: TaskId, u: TaskId)
    requires Reachable(s) && t in s.tasks && u in s.tasks
    ensures s.tasks[t].job == s.tasks[u].job ==> t == u
    ensures !s.tasks[t].pc.Settled? ==> Find(s.store.claims, s.tasks[t].job) == Some(s.tasks[t].worker)
  {
    hide TaskOk, JobOk, Reachable;
    ReachableHasInv(s);
    assert TaskHolds(s, t);
    TaskFacts(ViewIn(s, s.tasks[t].job), s.tasks[t]);
  }

  /** The only ways one step can change a record. */
  ghost predicate LegalChange(s: System, event: Event, job: JobId, before: Record, after: Record) {
    && !before.state.Terminal()
    && AllowedTransition(before.state, after.state)
    && ( || (event == Event.RequestCancel(job) && before.state.Queued? && after.state.Cancelled?)
         || (event.Advance? && Working(s, event.task, job)
             && Find(s.store.claims, job) == Some(s.tasks[event.task].worker)))
  }

  /** Apart from a cancel request on a queued job, a record is changed only by the one task that
      works on the job under its claim, along an allowed transition, and never once it is terminal. */
  lemma OnlyTheOwnerChangesARecord(s: System, event: Event, job: JobId)
    requires Reachable(s) && job in s.store.jobs
    ensures job in Apply(s, event).store.jobs
    ensures var before, after := s.store.jobs[job], Apply(s, event).store.jobs[job];
      after == before || LegalChange(s, event, job, before, after)
  {
    hide Reachable;
    ReachableHasInv(s);
    RecordChange(s, event, job);
  }

  lemma RecordChange(s: System, event: Event, job: JobId)
    requires Inv(s) && job in s.store.jobs
    ensures job in Apply(s, event).store.jobs
    ensures var before, after := s.store.jobs[job], Apply(s, event).store.jobs[job];
      after == before || LegalChange(s, event, job, before, after)
  {
    if event.Advance? && event.task in s.tasks {
      TaskChange(s, event.task, event.choice, job);
    }
  }

  lemma TaskChange(s: System, t: TaskId, choice: Choice, job: JobId)
    requires Inv(s) && job in s.store.jobs && t in s.tasks
    ensures job in TaskStep(s, t, choice).store.jobs
    ensures var before, after := s.store.jobs[job], TaskStep(s, t, choice).store.jobs[job];
      after == before || LegalChange(s, Advance(t, choice), job, before, after)
  {
    hide JobOk, TaskOk, AdvanceTask;
    var task := s.tasks[t];
    var n := TaskStep(s, t, choice);
    assert TaskHolds(s, t);
    if job != task.job {
      AdvanceIsLocal(s, task, choice, job);
      assert ViewIn(n, job).record == ViewIn(s, job).record;
    } else {
      TaskFacts(ViewIn(s, job), task);
      RecordAfterAdvance(s, task, choice);
      assert ViewIn(n, job).record == Some(n.store.jobs[job]);
    }
  }

  /** What one step of a task does to its record. */
  lemma RecordAfterAdvance(s: System, task: Task, choice: Choice)
    requires TaskOk(ViewIn(s, task.job), task)
    ensures var v := ViewIn(s, task.job); var o := AdvanceTask(s.store, s.capabilities, task, choice);
      var after := Find(o.store.jobs, task.job);
      after.Some?
      && (after == v.record
          || (!task.pc.Settled? && !v.record.value.state.Terminal()
              && AllowedTransition(v.record.value.state, after.value.state)))
  {
    var v := ViewIn(s, task.job);
    PerformOnView(s.store, s.log, task.job, task.worker, CallAt(task.pc));
    UpdatesAreLive(v, task);
  }

  /** A task that writes its record does so on a live job. */
  lemma UpdatesAreLive(v: JobView, task: Task)
    requires TaskOk(v, task)
    ensures v.record.Some?
    ensures CallAt(task.pc).CallUpdate? && CallOk(v, CallAt(task.pc)) ==>
      !v.record.value.state.Terminal() && !task.pc.Settled?
  {
  }

  lemma {:induction false} TerminalPersists(s: System, events: seq<Event>, job: JobId)
    requires Inv(s) && job in s.store.jobs && s.store.jobs[job].state.Terminal()
    ensures Find(Run(s, events).store.jobs, job) == Some(s.store.jobs[job])
    decreases |events|
  {
    hide Inv, Apply;
    if events != [] {
      RecordChange(s, events[0], job);
      ApplyKeepsInv(s, events[0]);
      TerminalPersists(Apply(s, events[0]), events[1..], job);
    }
  }

  /** A finished job's record is the same in every later state, whatever happens. */
  lemma TerminalIsForever(s: System, events: seq<Event>, job: JobId)
    requires Reachable(s) && job in s.store.jobs && s.store.jobs[job].state.Terminal()
    ensures Find(Run(s, events).store.jobs, job) == Some(s.store.jobs[job])
  {
    ReachableHasInv(s);
    TerminalPersists(s, events, job);
  }

  /** Enqueueing a known job id again changes nothing, and no id is inserted twice. */
  lemma EnqueueIsIdempotent(s: System, job: JobId, input: StructuredValue)
    requires Reachable(s)
    ensures job in s.store.jobs ==> Apply(s, EnqueueJob(job, input)) == s
    ensures s.log[Inserted(job)] <= 1
  {
    ReachableHasInv(s);
    assert JobOk(ViewIn(s, job));
  }

  lemma {:induction false} OrderOnlyGrows(s: System, events: seq<Event>)
    ensures var later := Run(s, events).store.order; |s.store.order| <= |later| && later[..|s.store.order|] == s.store.order
    decreases |events|
  {
    hide Apply;
    if events != [] {
      StepGrowsOrder(s, events[0]);
      OrderOnlyGrows(Apply(s, events[0]), events[1..]);
    }
  }

  lemma StepGrowsOrder(s: System, event: Event)
    ensures var after := Apply(s, event).store.order; |s.store.order| <= |after| && after[..|s.store.order|] == s.store.order
  {
    hide AdvanceTask;
    if event.Advance? && event.task in s.tasks {
      AdvanceTouchesItsJob(s.store, s.capabilities, s.tasks[event.task], event.choice);
    }
  }

  /** Jobs are handed out in the order they were enqueued: a claim in any later state that takes a job which
      was not known yet takes every claimable job that was. */
  lemma FirstComeFirstServed(s: System, events: seq<Event>, older: JobId, younger: JobId, limit: nat)
    requires Reachable(s) && older in s.store.jobs && younger !in s.store.jobs
    ensures var store := Run(s, events).store;
      younger in store.Picked(store.order, limit, []) && store.Claimable(older) ==> older in store.Picked(store.order, limit, [])
  {
    hide Reachable, Run, JobOk, TaskHolds, Distinct, PendingOk, Backed;
    ReachableHasInv(s);
    RunKeepsInv(s, events);
    OrderOnlyGrows(s, events);
    var store := Run(s, events).store;
    PickedIsOldestFirst(store, limit);
    if younger in store.Picked(store.order, limit, []) && store.Claimable(older) {
      forall j | 0 <= j < |s.store.order| ensures store.order[j] == s.store.order[j] {
        assert store.order[..|s.store.order|][j] == store.order[j];
      }
      assert older in s.store.order && younger !in s.store.order;
      var i :| 0 <= i < |s.store.order| && s.store.order[i] == older;
      assert younger in store.order;
      var k :| 0 <= k < |store.order| && store.order[k] == younger;
    }
  }

  /** On a terminal record the store lets through exactly the updates that name the state it has. */
  lemma TerminalUpdates(store: StoreState, job: JobId, patch: Patch)
    requires job in store.jobs && store.jobs[job].state.Terminal()
    ensures store.Update(job, patch).Success? <==> patch.state == store.jobs[job].state
  {
  }

  /** A store with one queued job, and at most one worker, claim and task. */
  ghost function Tiny(job: JobId, input: StructuredValue, workers: map<WorkerId, Worker>, claims: map<JobId, WorkerId>,
                      tasks: map<TaskId, Task>): System
  {
    System(StoreState([job], map[job := NewRecord(input)], map[], claims, {}), tasks,
           if 0 in tasks then 1 else 0, workers, {}, multiset{Inserted(job)})
  }

  ghost function Nothing(): System {
    System(StoreState([], map[], map[], map[], {}), map[], 0, map[], {}, multiset{})
  }

  /** A queued job may be claimed and have a task about to start it: here is such a run. */
  lemma QueuedJobWithATask(job: JobId, worker: WorkerId, input: StructuredValue, choice: Choice)
    ensures WellFormedStart(Nothing())
    ensures Run(Nothing(), [EnqueueJob(job, input), Open(worker, 1, true), Claim(worker), Spawn(worker), Advance(0, choice)])
      == Tiny(job, input, map[worker := Worker(1, true, Claimed([], true))], map[job := worker],
              map[0 := Task(job, worker, Promote(NewRecord(input)), 0, false)])
  {
    hide Apply;
    var looping := map[worker := Worker(1, true, Looping)];
    var holding := map[worker := Worker(1, true, Claimed([job], true))];
    var spent := map[worker := Worker(1, true, Claimed([], true))];
    var fetching := map[0 := Task(job, worker, Fetch, 0, false)];
    TinyEnqueue(job, input);
    TinyOpen(job, input, worker);
    TinyClaim(job, input, worker);
    TinySpawn(job, input, worker);
    TinyFetch(job, input, worker, choice);
    RunOfFive(Nothing(), EnqueueJob(job, input), Open(worker, 1, true), Claim(worker), Spawn(worker), Advance(0, choice));
  }

  lemma TinyEnqueue(job: JobId, input: StructuredValue)
    ensures Apply(Nothing(), EnqueueJob(job, input)) == Tiny(job, input, map[], map[], map[])
  {
    assert [] + [job] == [job];
  }

  lemma TinyOpen(job: JobId, input: StructuredValue, worker: WorkerId)
    ensures Apply(Tiny(job, input, map[], map[], map[]), Open(worker, 1, true))
         == Tiny(job, input, map[worker := Worker(1, true, Looping)], map[], map[])
  {
  }

  lemma TinyClaim(job: JobId, input: StructuredValue, worker: WorkerId)
    ensures Apply(Tiny(job, input, map[worker := Worker(1, true, Looping)], map[], map[]), Claim(worker))
         == Tiny(job, input, map[worker := Worker(1, true, Claimed([job], true))], map[job := worker], map[])
  {
    var s := Tiny(job, input, map[worker := Worker(1, true, Looping)], map[], map[]);
    assert InFlight(s, worker) == {} && Available(s, worker) == 1;
    assert s.store.Claimable(job) && [job][1..] == [] && [] + [job] == [job];
    assert s.store.Picked([job], 1, []) == s.store.Picked([], 1, [job]) == [job];
    assert Granted(map[], [job], worker) == map[job := worker];
  }

  lemma TinySpawn(job: JobId, input: StructuredValue, worker: WorkerId)
    ensures Apply(Tiny(job, input, map[worker := Worker(1, true, Claimed([job], true))], map[job := worker], map[]), Spawn(worker))
         == Tiny(job, input, map[worker := Worker(1, true, Claimed([], true))], map[job := worker],
                 map[0 := Task(job, worker, Fetch, 0, false)])
  {
    var s := Tiny(job, input, map[worker := Worker(1, true, Claimed([job], true))], map[job := worker], map[]);
    var n := Apply(s, Spawn(worker));
    assert [job][1..] == [];
    assert n.tasks == map[0 := Task(job, worker, Fetch, 0, false)] && 0 in n.tasks;
    assert n.workers == map[worker := Worker(1, true, Claimed([], true))];
  }

  lemma TinyFetch(job: JobId, input: StructuredValue, worker: WorkerId, choice: Choice)
    ensures Apply(Tiny(job, input, map[worker := Worker(1, true, Claimed([], true))], map[job := worker],
                       map[0 := Task(job, worker, Fetch, 0, false)]), Advance(0, choice))
         == Tiny(job, input, map[worker := Worker(1, true, Claimed([], true))], map[job := worker],
                 map[0 := Task(job, worker, Promote(NewRecord(input)), 0, false)])
  {
  }

  lemma RunOfFive(s: System, a: Event, b: Event, c: Event, d: Event, e: Event)
    ensures Run(s, [a, b, c, d, e]) == Apply(Apply(Apply(Apply(Apply(s, a), b), c), d), e)
  {
    hide Apply;
    assert [a, b, c, d, e][1..] == [b, c, d, e] && [b, c, d, e][1..] == [c, d, e];
    assert [c, d, e][1..] == [d, e] && [d, e][1..] == [e] && [e][1..] == [];
    var t := Apply(Apply(s, a), b);
    assert Run(s, [a, b, c, d, e]) == Run(Apply(s, a), [b, c, d, e]) == Run(t, [c, d, e]);
    assert Run(t, [c, d, e]) == Run(Apply(t, c), [d, e]) == Run(Apply(Apply(t, c), d), [e]);
    assert Run(Apply(Apply(t, c), d), [e]) == Run(Apply(Apply(Apply(t, c), d), e), []);
  }

  // ------------------------------------------------------------------ durable progress

  /** A waiting job has stored progress for the very call its record shows, in every state. */
  lemma WaitingJobsHaveProgress(s: System, job: JobId)
    requires Reachable(s) && job in s.store.jobs && s.store.jobs[job].state.Waiting?
    ensures HasProgress(s.store, job)
  {
    ReachableHasInv(s);
    assert JobOk(ViewIn(s, job));
  }

  /** The missing-progress branch is dead code: a task that loads progress finds it, and goes on
      with exactly the call the record shows. */
  lemma ProgressIsNeverMissing(s: System, t: TaskId, choice: Choice)
    requires Reachable(s) && t in s.tasks && s.tasks[t].pc.Load?
    ensures var job := s.tasks[t].job;
      job in s.store.jobs && HasProgress(s.store, job)
      && Apply(s, Advance(t, choice)).tasks[t].pc
         == if choice.loadError.Some? then Fail(choice.loadError.value) else PollBefore(s.store.progress[job])
  {
    hide JobOk, TaskOk, Reachable;
    ReachableHasInv(s);
    var job := s.tasks[t].job;
    assert TaskHolds(s, t) && JobOk(ViewIn(s, job));
    LoadingFindsProgress(ViewIn(s, job), s.tasks[t]);
  }

  lemma LoadingFindsProgress(v: JobView, task: Task)
    requires JobOk(v) && TaskOk(v, task) && task.pc.Load?
    ensures Matches(v)
  {
  }

  /** A store call throws in exactly one situation, the promotion of a job that a cancel request
      took while its task was between `get` and `update`; the task then lets go of the job and
      ends rejected. */
  lemma OnlyALostPromotionThrows(s: System, t: TaskId, choice: Choice)
    requires Reachable(s) && t in s.tasks
    ensures var task := s.tasks[t]; var o := AdvanceTask(s.store, s.capabilities, task, choice);
      && task.job in s.store.jobs
      && (o.threw <==> task.pc.Promote? && s.store.jobs[task.job].state.Cancelled?)
      && (o.threw ==> o.store == s.store && o.task == task.(pc := Release, rejected := true))
  {
    hide JobOk, AdvanceTask, Reachable;
    ReachableHasInv(s);
    assert TaskHolds(s, t) && JobOk(ViewIn(s, s.tasks[t].job));
    TaskFacts(ViewIn(s, s.tasks[t].job), s.tasks[t]);
    AdvanceKeepsView(s, s.tasks[t], choice);
  }

  /** A task that has ended leaves its job finished, unclaimed and without stored progress. */
  lemma EndedTasksLeaveFinishedJobs(s: System, t: TaskId)
    requires Reachable(s) && t in s.tasks && s.tasks[t].pc.Settled?
    ensures s.tasks[t].job in s.store.jobs && s.store.jobs[s.tasks[t].job].state.Terminal()
    ensures s.tasks[t].job !in s.store.claims && s.tasks[t].job !in s.store.progress
  {
    hide JobOk, TaskOk, Reachable;
    ReachableHasInv(s);
    assert TaskHolds(s, t);
    TaskFacts(ViewIn(s, s.tasks[t].job), s.tasks[t]);
  }

  // ------------------------------------------------------------------ at most one start

  /** A program is started at most once per job; a job enqueued in the run has been attempted
      exactly as often as it was promoted from queued to running, which is once or never. */
  lemma StartedAtMostOnce(s: System, job: JobId)
    requires Reachable(s)
    ensures s.log[Started(job)] <= s.log[Promoted(job)] <= 1
    ensures job in s.store.jobs && s.log[Inserted(job)] > 0 ==> s.store.jobs[job].attempts == s.log[Promoted(job)]
    ensures job in s.store.jobs && s.store.jobs[job].state.Queued? ==> s.log[Promoted(job)] == 0
  {
    ReachableHasInv(s);
    assert JobOk(ViewIn(s, job));
  }

  /** Once `requestCancel` has answered `'cancelled'`, the job stays cancelled and its program is
      never started, whatever task was about to promote it. */
  lemma CancelledJobsAreNeverStarted(s: System, job: JobId, events: seq<Event>)
    requires Reachable(s) && s.store.CancelReplyFor(job).CancelledNow?
    ensures var later := Run(Apply(s, Event.RequestCancel(job)), events);
      later.log[Started(job)] == 0 && job in later.store.jobs && later.store.jobs[job].state.Cancelled?
  {
    hide Apply, Run;
    ReachableHasInv(s);
    var n := Apply(s, Event.RequestCancel(job));
    ApplyKeepsInv(s, Event.RequestCancel(job));
    assert n == CancelStep(s, job) by { CancelApplied(s, job); }
    TerminalPersists(n, events, job);
    RunKeepsInv(n, events);
    LogOnlyGrows(n, events, CancelWon(job));
    assert JobOk(ViewIn(Run(n, events), job));
  }

  lemma CancelApplied(s: System, job: JobId)
    ensures Apply(s, Event.RequestCancel(job)) == CancelStep(s, job)
  {
  }

  lemma {:induction false} LogOnlyGrows(s: System, events: seq<Event>, action: Action)
    ensures s.log[action] <= Run(s, events).log[action]
    decreases |events|
  {
    hide Apply;
    if events != [] {
      StepGrowsLog(s, events[0], action);
      LogOnlyGrows(Apply(s, events[0]), events[1..], action);
    }
  }

  lemma StepGrowsLog(s: System, event: Event, action: Action)
    ensures s.log[action] <= Apply(s, event).log[action]
  {
    hide AdvanceTask;
  }

  // ------------------------------------------------------------------ bounded concurrency

  ghost predicate Bounded(s: System) {
    forall worker :: worker in s.workers ==>
      |InFlight(s, worker)| + |s.workers[worker].Pending()| <= s.workers[worker].max
  }

  /** A worker never has more than `maxConcurrentJobs` tasks in flight, even counting the jobs it
      has claimed and not started yet. */
  lemma ConcurrencyIsBounded(s: System, worker: WorkerId)
    requires Reachable(s) && worker in s.workers
    ensures |InFlight(s, worker)| + |s.workers[worker].Pending()| <= s.workers[worker].max
  {
    var start: System, events: seq<Event> :| WellFormedStart(start) && s == Run(start, events);
    StartHasInv(start);
    RunKeepsBound(start, events);
  }

  lemma {:induction false} RunKeepsBound(s: System, events: seq<Event>)
    requires Inv(s) && Bounded(s)
    ensures Bounded(Run(s, events))
    decreases |events|
  {
    hide Inv, Apply, Bounded;
    if events != [] {
      ApplyKeepsInv(s, events[0]);
      ApplyKeepsBound(s, events[0]);
      RunKeepsBound(Apply(s, events[0]), events[1..]);
    }
  }

  lemma ApplyKeepsBound(s: System, event: Event)
    requires Inv(s) && Bounded(s)
    ensures Bounded(Apply(s, event))
  {
    hide Inv, Bounded, AdvanceTask;
    match event
    case Claim(worker) => ClaimKeepsBound(s, worker);
    case Spawn(worker) => SpawnKeepsBound(s, worker);
    case Advance(t, choice) =>
      if t in s.tasks {
        AdvanceTouchesItsJob(s.store, s.capabilities, s.tasks[t], choice);
      }
      FewerTasksKeepBound(s, TaskStep(s, t, choice));
    case Drop(t) =>
      var rest := s.(tasks := s.tasks - {t});
      FewerTasksKeepBound(s, rest);
      if DropStep(s, t) != s {
        OnlyWorkersKeepBound(rest, DropStep(s, t));
      }
    case EnqueueJob(job, input) => FewerTasksKeepBound(s, EnqueueStep(s, job, input));
    case RequestCancel(job) => FewerTasksKeepBound(s, CancelStep(s, job));
    case _ => WorkerStepKeepsBound(s, event);
  }

  lemma FewerTasksKeepBound(s: System, n: System)
    requires Bounded(s) && n.workers == s.workers && n.tasks.Keys <= s.tasks.Keys
    requires forall t :: t in n.tasks ==> n.tasks[t].worker == s.tasks[t].worker
    ensures Bounded(n)
  {
    forall worker | worker in n.workers ensures |InFlight(n, worker)| <= |InFlight(s, worker)| {
      SubsetIsSmaller(InFlight(n, worker), InFlight(s, worker));
    }
  }

  lemma OnlyWorkersKeepBound(s: System, n: System)
    requires Bounded(s) && n == s.(workers := n.workers) && n.workers.Keys == s.workers.Keys
    requires forall worker :: worker in n.workers ==>
      n.workers[worker].max == s.workers[worker].max && n.workers[worker].Pending() == s.workers[worker].Pending()
    ensures Bounded(n)
  {
    assert forall worker :: InFlight(n, worker) == InFlight(s, worker);
  }

  lemma WorkerStepKeepsBound(s: System, event: Event)
    requires Inv(s) && Bounded(s) && (event.Open? || event.Decide? || event.Stop?)
    ensures Bounded(WorkerStep(s, event))
  {
    hide Inv;
    var n := WorkerStep(s, event);
    forall worker | worker in n.workers
      ensures |InFlight(n, worker)| + |n.workers[worker].Pending()| <= n.workers[worker].max
    {
      assert InFlight(n, worker) == InFlight(s, worker);
      if worker !in s.workers {
        NoTasksOfStrangers(s, worker);
      }
    }
  }

  lemma ClaimKeepsBound(s: System, worker: WorkerId)
    requires Inv(s) && Bounded(s)
    ensures Bounded(ClaimStep(s, worker))
  {
    hide JobOk, TaskHolds, Distinct, PendingOk, Backed;
    var n := ClaimStep(s, worker);
    if Available(s, worker) == 0 {
      if n != s {
        OnlyWorkersKeepBound(s, n);
      }
    } else {
      assert forall other :: InFlight(n, other) == InFlight(s, other);
      PickedIsOldestFirst(s.store, Available(s, worker));
    }
  }

  /** A worker that claims with room fills it, or leaves nothing to claim; without room it claims nothing. */
  lemma ClaimFillsTheRoom(s: System, worker: WorkerId)
    requires Reachable(s) && worker in s.workers && s.workers[worker].pc.Looping?
    ensures var n := Apply(s, Claim(worker));
      if |InFlight(s, worker)| < s.workers[worker].max then
        || |InFlight(n, worker)| + |n.workers[worker].Pending()| == n.workers[worker].max
        || forall job :: !n.store.Claimable(job)
      else n.store == s.store && n.workers[worker].pc == Racing(InFlight(s, worker))
  {
    hide Reachable, JobOk, TaskHolds, Distinct, PendingOk, Backed;
    ReachableHasInv(s);
    if Available(s, worker) > 0 {
      PickedIsOldestFirst(s.store, Available(s, worker));
      var n := ClaimStep(s, worker);
      assert InFlight(n, worker) == InFlight(s, worker);
      forall job | n.store.Claimable(job) ensures s.store.Claimable(job) && job !in n.workers[worker].Pending() {
      }
    }
  }

  lemma NoTasksOfStrangers(s: System, worker: WorkerId)
    requires Inv(s) && worker !in s.workers
    ensures InFlight(s, worker) == {}
  {
    forall t | t in s.tasks ensures s.tasks[t].worker != worker {
      assert TaskHolds(s, t);
    }
  }

  lemma SpawnKeepsBound(s: System, worker: WorkerId)
    requires Inv(s) && Bounded(s)
    ensures Bounded(SpawnStep(s, worker))
  {
    hide Inv, InFlight, SpawnStep;
    var n := SpawnStep(s, worker);
    if n != s {
      NextTaskIsNew(s);
      SpawnedInFlight(s, worker);
    }
  }

  /** Starting a task moves one job from what is pending to what is in flight. */
  lemma SpawnedInFlight(s: System, worker: WorkerId)
    requires s.nextTask !in s.tasks && SpawnStep(s, worker) != s
    ensures var n := SpawnStep(s, worker);
      && n.workers.Keys == s.workers.Keys && worker in s.workers
      && (forall other :: other in s.workers ==> n.workers[other].max == s.workers[other].max)
      && |InFlight(n, worker)| == |InFlight(s, worker)| + 1 && |n.workers[worker].Pending()| == |s.workers[worker].Pending()| - 1
      && forall other :: other in s.workers && other != worker ==>
           InFlight(n, other) == InFlight(s, other) && n.workers[other].Pending() == s.workers[other].Pending()
  {
    var n := SpawnStep(s, worker);
    assert InFlight(n, worker) == InFlight(s, worker) + {s.nextTask};
    forall other | other in s.workers && other != worker ensures InFlight(n, other) == InFlight(s, other) {
    }
  }

  lemma NextTaskIsNew(s: System)
    requires Inv(s)
    ensures s.nextTask !in s.tasks
  {
    forall t | t in s.tasks ensures t != s.nextTask {
      assert TaskHolds(s, t);
    }
  }
}

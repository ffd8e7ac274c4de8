/**
 How a cancel request is honoured (lib/executor.ts:451-512), over every run: while it is pending no
 host handler of its job is called, at most the one step of the guest that was already decided on
 happens, and once a task has consumed it the guest's next step is the cancellation.
 */
module ExecutorCancellation {
  import opened Wrappers
  import opened StructuredValues
  import opened ExecutorStore
  import opened Executor
  import opened ExecutorInvariant
  import opened ExecutorTheorems

  /** Steps of the guest that are not cancellations. */
  function OrdinarySteps(log: multiset<Action>, job: JobId): nat {
    log[Started(job)] + log[Resumed(job)]
  }

  /** A request for `job` is pending now and after each of `events`. */
  ghost predicate StaysPending(s: System, job: JobId, events: seq<Event>)
    decreases |events|
  {
    job in s.store.cancels && (events == [] || StaysPending(Apply(s, events[0]), job, events[1..]))
  }

  predicate IsQueued(store: StoreState, job: JobId) {
    job in store.jobs && store.jobs[job].state.Queued?
  }

  /** A task here starts or resumes the guest without asking for cancel requests again. */
  predicate Committed(pc: Pc) {
    pc.Promote? || pc.Launch? || (pc.Resume? && !pc.cancelling)
  }

  /** The ordinary step a job may still take: it is yet to be started, or its task is committed. */
  ghost predicate MayStep(s: System, job: JobId) {
    IsQueued(s.store, job) || exists t :: t in s.tasks && s.tasks[t].job == job && Committed(s.tasks[t].pc)
  }

  predicate TaskMayStep(store: StoreState, task: Task) {
    IsQueued(store, task.job) || Committed(task.pc)
  }

  function Count(b: bool): nat {
    if b then 1 else 0
  }

  // ------------------------------------------------------------------ while a request is pending

  lemma StepsOfOneCall(store: StoreState, capabilities: set<string>, task: Task, choice: Choice, next: Task)
    ensures var actions := Actions(store, capabilities, task, choice, next);
      && OrdinarySteps(actions, task.job) == Count(task.pc.Launch? || (task.pc.Resume? && !task.pc.cancelling))
      && actions[Handled(task.job)] == Count(task.pc.PollBefore? && next.pc.Handle?)
  {
    hide Replies;
    RepliesAreNoCalls(store, capabilities, task, choice);
  }

  /** How a task comes to be committed. */
  lemma CommittedNext(store: StoreState, capabilities: set<string>, task: Task, choice: Choice)
    ensures var next := Continue(store, capabilities, task, choice);
      && (Committed(next.pc) ==>
            (task.pc.Fetch? && IsQueued(store, task.job)) || task.pc.Promote? || (task.pc.PollAfter? && task.job !in store.cancels))
      && (task.pc.PollBefore? && next.pc.Handle? ==> task.job !in store.cancels)
  {
  }

  lemma QueuedAfterCall(store: StoreState, job: JobId, worker: WorkerId, pc: Pc)
    requires Perform(store, job, worker, CallAt(pc)).Success?
    ensures IsQueued(Perform(store, job, worker, CallAt(pc)).value, job) ==> IsQueued(store, job) && !pc.Promote?
  {
  }

  /** One step of the job's own task. */
  lemma PendingTaskStep(store: StoreState, capabilities: set<string>, task: Task, choice: Choice)
    requires task.job in store.jobs && task.job in store.cancels
    requires IsQueued(store, task.job) ==> task.pc.Fetch? || task.pc.Promote?
    ensures var o := AdvanceTask(store, capabilities, task, choice);
      task.job in o.store.cancels ==>
        && o.actions[Handled(task.job)] == 0
        && OrdinarySteps(o.actions, task.job) + Count(TaskMayStep(o.store, o.task)) <= Count(TaskMayStep(store, task))
  {
    hide Continue, Perform, Actions;
    var next := Continue(store, capabilities, task, choice);
    StepsOfOneCall(store, capabilities, task, choice, next);
    CommittedNext(store, capabilities, task, choice);
    ContinueKeepsOwner(store, capabilities, task, choice);
    if Perform(store, task.job, task.worker, CallAt(task.pc)).Success? {
      QueuedAfterCall(store, task.job, task.worker, task.pc);
    }
  }

  lemma TasksOfQueuedJobs(v: JobView, task: Task)
    requires TaskOk(v, task) && In(v, Queued)
    ensures task.pc.Fetch? || task.pc.Promote?
  {
  }

  lemma MayStepIsItsTask(s: System, t: TaskId)
    requires Distinct(s) && t in s.tasks
    ensures MayStep(s, s.tasks[t].job) <==> TaskMayStep(s.store, s.tasks[t])
  {
  }

  lemma PendingAdvance(s: System, t: TaskId, choice: Choice, job: JobId)
    requires Inv(s) && t in s.tasks && job in s.store.jobs && job in s.store.cancels
    ensures var n := TaskStep(s, t, choice);
      job in n.store.cancels ==>
        && n.log[Handled(job)] == s.log[Handled(job)]
        && OrdinarySteps(n.log, job) + Count(MayStep(n, job)) <= OrdinarySteps(s.log, job) + Count(MayStep(s, job))
  {
    hide JobOk, TaskOk, AdvanceTask, MayStep;
    var n, task := TaskStep(s, t, choice), s.tasks[t];
    var o := AdvanceTask(s.store, s.capabilities, task, choice);
    AdvanceTouchesItsJob(s.store, s.capabilities, task, choice);
    assert TaskHolds(s, t);
    if task.job == job {
      if IsQueued(s.store, job) {
        TasksOfQueuedJobs(ViewIn(s, job), task);
      }
      PendingTaskStep(s.store, s.capabilities, task, choice);
      MayStepIsItsTask(s, t);
      MayStepIsItsTask(n, t);
    } else {
      AdvanceIsLocal(s, task, choice, job);
      assert ViewIn(n, job).record == ViewIn(s, job).record;
      OthersMayStep(s, n, t, job);
    }
  }

  lemma OthersMayStep(s: System, n: System, t: TaskId, job: JobId)
    requires t in s.tasks && t in n.tasks && n.tasks == s.tasks[t := n.tasks[t]]
    requires s.tasks[t].job != job && n.tasks[t].job != job
    requires Find(n.store.jobs, job) == Find(s.store.jobs, job)
    ensures MayStep(n, job) <==> MayStep(s, job)
  {
    if u :| u in s.tasks && s.tasks[u].job == job && Committed(s.tasks[u].pc) {
      assert n.tasks[u] == s.tasks[u];
    }
  }

  lemma PendingStep(s: System, event: Event, job: JobId)
    requires Inv(s) && job in s.store.jobs && job in s.store.cancels && job in Apply(s, event).store.cancels
    ensures var n := Apply(s, event);
      && job in n.store.jobs
      && n.log[Handled(job)] == s.log[Handled(job)]
      && OrdinarySteps(n.log, job) + Count(MayStep(n, job)) <= OrdinarySteps(s.log, job) + Count(MayStep(s, job))
  {
    hide Inv, AdvanceTask, MayStep;
    RecordChange(s, event, job);
    match event
    case Advance(t, choice) =>
      if t in s.tasks {
        PendingAdvance(s, t, choice, job);
      }
    case Spawn(worker) =>
      NextTaskIsNew(s);
      NoNewCommitment(s, Apply(s, event), job);
    case _ => NoNewCommitment(s, Apply(s, event), job);
  }

  lemma NoNewCommitment(s: System, n: System, job: JobId)
    requires IsQueued(n.store, job) ==> IsQueued(s.store, job)
    requires forall t :: t in n.tasks && Committed(n.tasks[t].pc) ==> t in s.tasks && n.tasks[t] == s.tasks[t]
    ensures MayStep(n, job) ==> MayStep(s, job)
  {
  }

  /** While a request for a job is pending no handler of the job is called, and its guest takes at most
      one ordinary step, which it may only if the job was still to be started or its task had already
      looked for requests. */
  lemma {:induction false} PendingCancelHolds(s: System, job: JobId, events: seq<Event>)
    requires Inv(s) && job in s.store.jobs && StaysPending(s, job, events)
    ensures var n := Run(s, events);
      && n.log[Handled(job)] == s.log[Handled(job)]
      && OrdinarySteps(n.log, job) + Count(MayStep(n, job)) <= OrdinarySteps(s.log, job) + Count(MayStep(s, job))
    decreases |events|
  {
    hide Inv, Apply, MayStep;
    if events != [] {
      assert job in Apply(s, events[0]).store.cancels;
      PendingStep(s, events[0], job);
      ApplyKeepsInv(s, events[0]);
      PendingCancelHolds(Apply(s, events[0]), job, events[1..]);
    }
  }

  /** A waiting job whose cancel was requested sees no handler call and no ordinary step of its guest for as
      long as the request is pending; a running one sees at most one ordinary step. */
  lemma RequestedCancelHolds(s: System, job: JobId, events: seq<Event>)
    requires Reachable(s) && s.store.CancelReplyFor(job).Requested?
    requires StaysPending(Apply(s, Event.RequestCancel(job)), job, events)
    ensures var n := Run(Apply(s, Event.RequestCancel(job)), events);
      && n.log[Handled(job)] == s.log[Handled(job)]
      && OrdinarySteps(n.log, job) <= OrdinarySteps(s.log, job) + Count(s.store.jobs[job].state.Running?)
  {
    hide Reachable, Run, Inv, StaysPending;
    ReachableHasInv(s);
    var asked := Apply(s, Event.RequestCancel(job));
    ApplyKeepsInv(s, Event.RequestCancel(job));
    assert asked.log == s.log && Find(asked.store.jobs, job) == Find(s.store.jobs, job);
    PendingCancelHolds(asked, job, events);
    if s.store.jobs[job].state.Waiting? {
      WaitingIsNotCommitted(asked, job);
    }
  }

  lemma WaitingIsNotCommitted(s: System, job: JobId)
    requires Inv(s) && job in s.store.jobs && s.store.jobs[job].state.Waiting?
    ensures !MayStep(s, job)
  {
    hide JobOk, TaskOk;
    forall t | t in s.tasks && s.tasks[t].job == job ensures !Committed(s.tasks[t].pc) {
      assert TaskHolds(s, t);
      TasksOfWaitingJobs(ViewIn(s, job), s.tasks[t]);
    }
  }

  lemma TasksOfWaitingJobs(v: JobView, task: Task)
    requires TaskOk(v, task) && In(v, Waiting)
    ensures !Committed(task.pc)
  {
  }

  // ------------------------------------------------------------------ once it is consumed

  /** Task `t` of `job` has consumed a request and not cancelled the guest yet. */
  ghost predicate Aborting(s: System, t: TaskId, job: JobId) {
    t in s.tasks && s.tasks[t].job == job && (s.tasks[t].pc.WakeCancelled? || (s.tasks[t].pc.Resume? && s.tasks[t].pc.cancelling))
  }

  /** A request stops pending only when the job's task consumes it, and then that task is cancelling. */
  lemma ConsumedByItsTask(s: System, event: Event, job: JobId)
    requires job in s.store.cancels && job !in Apply(s, event).store.cancels
    ensures event.Advance? && Aborting(Apply(s, event), event.task, job)
  {
    hide AdvanceTask;
    if event.Advance? && event.task in s.tasks {
      ConsumingTask(s.store, s.capabilities, s.tasks[event.task], event.choice, job);
      AdvanceTouchesItsJob(s.store, s.capabilities, s.tasks[event.task], event.choice);
    }
  }

  lemma ConsumingTask(store: StoreState, capabilities: set<string>, task: Task, choice: Choice, job: JobId)
    requires job in store.cancels
    ensures var o := AdvanceTask(store, capabilities, task, choice);
      job !in o.store.cancels ==>
        job == task.job && (o.task.pc.WakeCancelled? || (o.task.pc.Resume? && o.task.pc.cancelling))
  {
    hide Continue, Actions;
    if CallAt(task.pc).CallConsumeCancel? && task.job in store.cancels {
      ConsumingNext(store, capabilities, task, choice);
    }
  }

  lemma ConsumingNext(store: StoreState, capabilities: set<string>, task: Task, choice: Choice)
    requires CallAt(task.pc).CallConsumeCancel? && task.job in store.cancels
    ensures var pc := Continue(store, capabilities, task, choice).pc; pc.WakeCancelled? || (pc.Resume? && pc.cancelling)
  {
  }

  ghost predicate SameSteps(s: System, n: System, job: JobId) {
    n.log[Handled(job)] == s.log[Handled(job)] && OrdinarySteps(n.log, job) == OrdinarySteps(s.log, job)
  }

  /** A cancelling task goes on to cancel the guest, and nothing else is done for its job before. */
  lemma AbortingTaskStep(store: StoreState, capabilities: set<string>, task: Task, choice: Choice)
    requires task.pc.WakeCancelled? || (task.pc.Resume? && task.pc.cancelling)
    ensures var o := AdvanceTask(store, capabilities, task, choice);
      && o.actions[Handled(task.job)] == 0 && OrdinarySteps(o.actions, task.job) == 0
      && (!o.threw ==>
            o.actions[Aborted(task.job)] > 0 || (o.task.pc.Resume? && o.task.pc.cancelling && o.task.job == task.job))
  {
    hide Replies;
    RepliesAreNoCalls(store, capabilities, task, choice);
  }

  lemma AbortingStep(s: System, event: Event, t: TaskId, job: JobId)
    requires Inv(s) && Aborting(s, t, job)
    ensures var n := Apply(s, event);
      SameSteps(s, n, job) && (Aborting(n, t, job) || n.log[Aborted(job)] > s.log[Aborted(job)])
  {
    hide Inv, AdvanceTask;
    match event
    case Advance(u, choice) =>
      if u in s.tasks {
        AbortingAdvance(s, u, choice, t, job);
      }
    case Spawn(worker) => NextTaskIsNew(s);
    case _ =>
  }

  lemma AbortingAdvance(s: System, u: TaskId, choice: Choice, t: TaskId, job: JobId)
    requires Inv(s) && u in s.tasks && Aborting(s, t, job)
    ensures var n := TaskStep(s, u, choice);
      SameSteps(s, n, job) && (Aborting(n, t, job) || n.log[Aborted(job)] > s.log[Aborted(job)])
  {
    hide Inv, AdvanceTask;
    AdvanceTouchesItsJob(s.store, s.capabilities, s.tasks[u], choice);
    if u == t {
      AbortingTaskStep(s.store, s.capabilities, s.tasks[t], choice);
      OnlyPromotionsThrow(s, t, choice);
    } else {
      OtherJob(s, t, u);
    }
  }

  lemma OnlyPromotionsThrow(s: System, t: TaskId, choice: Choice)
    requires Inv(s) && t in s.tasks
    ensures AdvanceTask(s.store, s.capabilities, s.tasks[t], choice).threw ==> s.tasks[t].pc.Promote?
  {
    hide JobOk, AdvanceTask;
    assert TaskHolds(s, t) && JobOk(ViewIn(s, s.tasks[t].job));
    AdvanceKeepsView(s, s.tasks[t], choice);
  }

  lemma OtherJob(s: System, t: TaskId, u: TaskId)
    requires Inv(s) && t in s.tasks && u in s.tasks && t != u
    ensures s.tasks[t].job != s.tasks[u].job
  {
  }

  lemma {:induction false} AbortingRun(s: System, events: seq<Event>, t: TaskId, job: JobId)
    requires Inv(s) && Aborting(s, t, job)
    ensures var n := Run(s, events); n.log[Aborted(job)] > s.log[Aborted(job)] || (SameSteps(s, n, job) && Aborting(n, t, job))
    decreases |events|
  {
    hide Inv, Apply, Aborting;
    if events != [] {
      AbortingStep(s, events[0], t, job);
      ApplyKeepsInv(s, events[0]);
      var n := Apply(s, events[0]);
      if n.log[Aborted(job)] > s.log[Aborted(job)] {
        LogOnlyGrows(n, events[1..], Aborted(job));
      } else {
        assert n.log[Aborted(job)] == s.log[Aborted(job)] by { LogStepGrows(s, events[0], Aborted(job)); }
        AbortingRun(n, events[1..], t, job);
      }
    }
  }

  lemma LogStepGrows(s: System, event: Event, action: Action)
    ensures s.log[action] <= Apply(s, event).log[action]
  {
  }

  /** Once a request is consumed, its job's guest is cancelled before any handler of the job is called and
      before the guest takes an ordinary step, whatever else happens. */
  lemma NextStepIsTheCancel(s: System, event: Event, job: JobId, events: seq<Event>)
    requires Reachable(s) && job in s.store.cancels && job !in Apply(s, event).store.cancels
    ensures var consumed, n := Apply(s, event), Run(Apply(s, event), events);
      n.log[Aborted(job)] > consumed.log[Aborted(job)] || SameSteps(consumed, n, job)
  {
    hide Reachable, Run, Apply, Inv, Aborting;
    ReachableHasInv(s);
    ConsumedByItsTask(s, event, job);
    ApplyKeepsInv(s, event);
    AbortingRun(Apply(s, event), events, event.task, job);
  }
}

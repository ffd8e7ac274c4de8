/** What a draining worker leaves behind (lib/executor.ts:347-388). */
module ExecutorDraining {
  import opened Wrappers
  import opened StructuredValues
  import opened ExecutorStore
  import opened Executor
  import opened ExecutorInvariant
  import opened ExecutorTheorems

  /** Nothing is enqueued and `worker` does not claim again. */
  predicate Quiescent(event: Event, worker: WorkerId) {
    !event.EnqueueJob? && event != Claim(worker)
  }

  ghost predicate AllRunnableClaimed(s: System) {
    forall job :: job in s.store.jobs && s.store.jobs[job].state.Runnable() ==> job in s.store.claims
  }

  /** `worker` has a task in flight on `job`, or has claimed it and not started one yet. */
  ghost predicate AtWorkOn(s: System, worker: WorkerId, job: JobId) {
    && worker in s.workers
    && ((exists t :: Working(s, t, job) && s.tasks[t].worker == worker) || job in s.workers[worker].Pending())
  }

  /** The last claim of a draining worker, made in `claimed`, and what happened from there to the state
      in which it decided to return. */
  ghost predicate DrainReturns(claimed: System, worker: WorkerId, mid: seq<Event>) {
    && Reachable(claimed) && Available(claimed, worker) > 0
    && (forall i :: 0 <= i < |mid| ==> Quiescent(mid[i], worker))
    && var end := Run(Apply(claimed, Claim(worker)), mid);
    && worker in end.workers && end.workers[worker].pc == Claimed([], false)
    && Apply(end, Decide(worker)).workers[worker].pc.Returned?
  }

  /** Whatever other workers do, when a draining worker returns with nothing enqueued since its last
      claim, a job that is still queued or waiting is one that another worker is at work on. */
  lemma DrainLeavesOnlyJobsOfOthers(claimed: System, worker: WorkerId, mid: seq<Event>, job: JobId)
    requires DrainReturns(claimed, worker, mid)
    requires var end := Run(Apply(claimed, Claim(worker)), mid);
      job in end.store.jobs && end.store.jobs[job].state.Runnable()
    ensures var end := Run(Apply(claimed, Claim(worker)), mid);
      job in end.store.claims && end.store.claims[job] != worker && AtWorkOn(end, end.store.claims[job], job)
  {
    hide Reachable, Run, Apply, Inv, AtWorkOn;
    ReachableHasInv(claimed);
    var first := Apply(claimed, Claim(worker));
    ApplyKeepsInv(claimed, Claim(worker));
    assert first == ClaimStep(claimed, worker) by { ClaimApplied(claimed, worker); }
    ClaimedFlagIsKept(first, worker, mid);
    EmptyClaimMeansAllClaimed(claimed, worker);
    var end := Run(first, mid);
    RunKeepsClaimed(first, worker, mid);
    DecideReturns(end, worker);
    ClaimantsAreAtWork(end, job);
    IdleWorkersAreNotAtWork(end, worker, job);
  }

  /** So when no other worker is at work, as when all of them have returned, nothing is left. */
  lemma DrainLeavesNothing(claimed: System, worker: WorkerId, mid: seq<Event>)
    requires DrainReturns(claimed, worker, mid)
    requires var end := Run(Apply(claimed, Claim(worker)), mid);
      forall other :: other in end.workers && other != worker ==>
        InFlight(end, other) == {} && end.workers[other].Pending() == []
    ensures var end := Run(Apply(claimed, Claim(worker)), mid);
      forall job :: job in end.store.jobs ==> !end.store.jobs[job].state.Runnable()
  {
    hide DrainReturns, Run, Apply;
    var end := Run(Apply(claimed, Claim(worker)), mid);
    forall job | job in end.store.jobs ensures !end.store.jobs[job].state.Runnable() {
      if end.store.jobs[job].state.Runnable() {
        DrainLeavesOnlyJobsOfOthers(claimed, worker, mid, job);
        IdleWorkersAreNotAtWork(end, end.store.claims[job], job);
        assert false;
      }
    }
  }

  lemma IdleWorkersAreNotAtWork(s: System, worker: WorkerId, job: JobId)
    requires worker in s.workers && InFlight(s, worker) == {} && s.workers[worker].Pending() == []
    ensures !AtWorkOn(s, worker, job)
  {
    forall t | Working(s, t, job) ensures s.tasks[t].worker != worker {
      assert t !in InFlight(s, worker);
    }
  }

  /** A worker that has returned, or was stopped or failed and has no task left, is not at work and never
      will be again: it cannot be what keeps a later drain from leaving nothing. */
  ghost predicate Gone(s: System, worker: WorkerId) {
    && worker in s.workers && InFlight(s, worker) == {}
    && (s.workers[worker].pc.Returned? || s.workers[worker].pc.Stopped? || s.workers[worker].pc.FailedBy?)
  }

  lemma {:induction false} GoneForever(s: System, events: seq<Event>, worker: WorkerId)
    requires Inv(s) && Gone(s, worker)
    ensures Gone(Run(s, events), worker) && Run(s, events).workers[worker].Pending() == []
    decreases |events|
  {
    hide Inv, Apply, Gone;
    if events == [] {
      assert s.workers[worker].Pending() == [] by { GoneIsIdle(s, worker); }
    } else {
      ApplyKeepsInv(s, events[0]);
      StepKeepsGone(s, events[0], worker);
      GoneForever(Apply(s, events[0]), events[1..], worker);
    }
  }

  lemma GoneIsIdle(s: System, worker: WorkerId)
    requires Gone(s, worker)
    ensures worker in s.workers && s.workers[worker].Pending() == []
  {
  }

  lemma StepKeepsGone(s: System, event: Event, worker: WorkerId)
    requires Inv(s) && Gone(s, worker)
    ensures Gone(Apply(s, event), worker)
  {
    hide Inv, AdvanceTask;
    var n := Apply(s, event);
    match event
    case Advance(t, choice) =>
      if t in s.tasks {
        AdvanceTouchesItsJob(s.store, s.capabilities, s.tasks[t], choice);
        assert forall u :: u in n.tasks ==> u in s.tasks && n.tasks[u].worker == s.tasks[u].worker;
      }
      assert InFlight(n, worker) == InFlight(s, worker);
    case Spawn(other) =>
      NextTaskIsNew(s);
      assert InFlight(n, worker) == InFlight(s, worker);
    case Drop(t) => assert InFlight(n, worker) <= InFlight(s, worker);
    case _ => assert InFlight(n, worker) == InFlight(s, worker);
  }

  /** The drain of a worker that is alone but not the first: every other worker opened before has
      returned or was stopped with nothing left in flight, and none is opened meanwhile. */
  lemma LoneDrainLeavesNothing(claimed: System, worker: WorkerId, mid: seq<Event>)
    requires DrainReturns(claimed, worker, mid)
    requires forall other :: other in claimed.workers && other != worker ==> Gone(claimed, other)
    requires forall i :: 0 <= i < |mid| ==> !mid[i].Open?
    ensures var end := Run(Apply(claimed, Claim(worker)), mid);
      forall job :: job in end.store.jobs ==> !end.store.jobs[job].state.Runnable()
  {
    hide Reachable, Run, Apply, Inv, Gone;
    ReachableHasInv(claimed);
    var first := Apply(claimed, Claim(worker));
    var end := Run(first, mid);
    ApplyKeepsInv(claimed, Claim(worker));
    assert first.workers.Keys == claimed.workers.Keys by { ClaimOpensNothing(claimed, worker); }
    NothingIsOpened(first, mid);
    forall other | other in end.workers && other != worker
      ensures InFlight(end, other) == {} && end.workers[other].Pending() == []
    {
      StepKeepsGone(claimed, Claim(worker), other);
      GoneForever(first, mid, other);
      assert Gone(end, other);
      GoneHasNothing(end, other);
    }
    DrainLeavesNothing(claimed, worker, mid);
  }

  lemma GoneHasNothing(s: System, worker: WorkerId)
    requires Gone(s, worker)
    ensures InFlight(s, worker) == {}
  {
  }

  lemma ClaimOpensNothing(s: System, worker: WorkerId)
    ensures Apply(s, Claim(worker)).workers.Keys == s.workers.Keys
  {
  }

  lemma {:induction false} NothingIsOpened(s: System, events: seq<Event>)
    requires forall i :: 0 <= i < |events| ==> !events[i].Open?
    ensures Run(s, events).workers.Keys == s.workers.Keys
    decreases |events|
  {
    hide Apply;
    if events != [] {
      assert Apply(s, events[0]).workers.Keys == s.workers.Keys by { OnlyOpenOpens(s, events[0]); }
      NothingIsOpened(Apply(s, events[0]), events[1..]);
    }
  }

  lemma OnlyOpenOpens(s: System, event: Event)
    requires !event.Open?
    ensures Apply(s, event).workers.Keys == s.workers.Keys
  {
  }

  lemma ClaimApplied(s: System, worker: WorkerId)
    ensures Apply(s, Claim(worker)) == ClaimStep(s, worker)
  {
  }

  /** A worker decides to return only when it drains, nothing is in flight and it got no job. */
  lemma DecideReturns(s: System, worker: WorkerId)
    requires worker in s.workers && s.workers[worker].pc.Claimed?
    requires Apply(s, Decide(worker)).workers[worker].pc.Returned?
    ensures InFlight(s, worker) == {} && s.workers[worker].drain && !s.workers[worker].pc.gotJobs
  {
  }

  /** A claim's flag does not change until the worker is back in its loop, and only a claim ends that. */
  lemma FlagStep(s: System, worker: WorkerId, event: Event)
    requires worker in s.workers && Quiescent(event, worker)
    ensures var n := Apply(s, event);
      && worker in n.workers
      && (n.workers[worker].pc.Claimed? ==>
            s.workers[worker].pc.Claimed? && n.workers[worker].pc.gotJobs == s.workers[worker].pc.gotJobs)
  {
    hide AdvanceTask;
  }

  lemma {:induction false} ClaimedFlagIsKept(s: System, worker: WorkerId, events: seq<Event>)
    requires worker in s.workers && forall i :: 0 <= i < |events| ==> Quiescent(events[i], worker)
    ensures var n := Run(s, events);
      && worker in n.workers
      && (n.workers[worker].pc.Claimed? ==>
            s.workers[worker].pc.Claimed? && n.workers[worker].pc.gotJobs == s.workers[worker].pc.gotJobs)
    decreases |events|
  {
    hide Apply;
    if events != [] {
      FlagStep(s, worker, events[0]);
      ClaimedFlagIsKept(Apply(s, events[0]), worker, events[1..]);
    }
  }

  lemma EmptyClaimMeansAllClaimed(s: System, worker: WorkerId)
    requires Inv(s) && Available(s, worker) > 0
    requires !ClaimStep(s, worker).workers[worker].pc.gotJobs
    ensures AllRunnableClaimed(ClaimStep(s, worker))
  {
    PickedIsOldestFirst(s.store, Available(s, worker));
    var n := ClaimStep(s, worker);
    forall job | job in n.store.jobs && n.store.jobs[job].state.Runnable() ensures job in n.store.claims {
      assert !s.store.Claimable(job);
    }
  }

  lemma {:induction false} RunKeepsClaimed(s: System, worker: WorkerId, events: seq<Event>)
    requires Inv(s) && AllRunnableClaimed(s)
    requires forall i :: 0 <= i < |events| ==> Quiescent(events[i], worker)
    ensures Inv(Run(s, events)) && AllRunnableClaimed(Run(s, events))
    decreases |events|
  {
    hide Inv, Apply, AllRunnableClaimed;
    if events != [] {
      ApplyKeepsInv(s, events[0]);
      StepKeepsClaimed(s, events[0]);
      RunKeepsClaimed(Apply(s, events[0]), worker, events[1..]);
    }
  }

  lemma StepKeepsClaimed(s: System, event: Event)
    requires Inv(s) && AllRunnableClaimed(s) && !event.EnqueueJob?
    ensures AllRunnableClaimed(Apply(s, event))
  {
    hide Inv;
    if event.Advance? && event.task in s.tasks {
      TaskKeepsClaimed(s, event.task, event.choice);
    }
  }

  lemma TaskKeepsClaimed(s: System, t: TaskId, choice: Choice)
    requires Inv(s) && AllRunnableClaimed(s) && t in s.tasks
    ensures AllRunnableClaimed(TaskStep(s, t, choice))
  {
    hide JobOk, AdvanceTask;
    var n := TaskStep(s, t, choice);
    var task := s.tasks[t];
    assert TaskHolds(s, t) && JobOk(ViewIn(s, task.job));
    AdvanceTouchesItsJob(s.store, s.capabilities, task, choice);
    AdvanceKeepsView(s, task, choice);
    TaskFacts(ViewIn(n, task.job), n.tasks[t]);
    forall job | job in n.store.jobs && n.store.jobs[job].state.Runnable() ensures job in n.store.claims {
      if job != task.job {
        AdvanceIsLocal(s, task, choice, job);
        assert ViewIn(n, job) == ViewIn(s, job);
      }
    }
  }

  /** The worker a claim names is at work on the job. */
  lemma ClaimantsAreAtWork(s: System, job: JobId)
    requires Inv(s) && job in s.store.claims
    ensures AtWorkOn(s, s.store.claims[job], job)
  {
    hide JobOk, TaskOk;
    assert Backed(s, job);
    if t :| Working(s, t, job) {
      assert TaskHolds(s, t);
      TaskFacts(ViewIn(s, job), s.tasks[t]);
    }
  }
}

/** How a worker ends (lib/executor.ts:347-388): by returning, by being stopped, or by a lost promotion. */
module ExecutorFailing {
  import opened Wrappers
  import opened StructuredValues
  import opened ExecutorStore
  import opened Executor
  import opened ExecutorInvariant
  import opened ExecutorTheorems

  predicate HasEnded(pc: WorkerPc) {
    pc.Returned? || pc.Stopped? || pc.FailedBy?
  }

  /** A rejected task settles while its worker waits for it. */
  predicate FailingDrop(s: System, event: Event, worker: WorkerId)
    requires worker in s.workers
  {
    && event.Drop? && event.task in s.tasks && s.tasks[event.task].pc.Settled? && s.tasks[event.task].rejected
    && s.tasks[event.task].worker == worker && WaitsFor(s.workers[worker], event.task)
  }

  /** Cancelled by `requestCancel` and never promoted or started. */
  ghost predicate LostPromotion(s: System, job: JobId) {
    && job in s.store.jobs && s.store.jobs[job].state.Cancelled? && s.log[CancelWon(job)] > 0
    && s.log[Promoted(job)] == 0 && s.log[Started(job)] == 0
  }

  lemma CancelWonIsLost(s: System, job: JobId)
    requires Inv(s) && s.log[CancelWon(job)] > 0
    ensures LostPromotion(s, job)
  {
    assert JobOk(ViewIn(s, job));
  }

  lemma RejectedIsLost(s: System, t: TaskId)
    requires Inv(s) && t in s.tasks && s.tasks[t].rejected
    ensures s.tasks[t].pc.Release? || s.tasks[t].pc.Settled?
    ensures LostPromotion(s, s.tasks[t].job)
  {
    assert TaskHolds(s, t);
    CancelWonIsLost(s, s.tasks[t].job);
  }

  /** The promise of a task is rejected in one case only: its job was cancelled between `get` and the
      promotion, and its guest was never started. */
  lemma RejectedTasksLostTheirPromotion(s: System, t: TaskId)
    requires Reachable(s) && t in s.tasks && s.tasks[t].rejected
    ensures LostPromotion(s, s.tasks[t].job)
  {
    hide Reachable, Inv, LostPromotion;
    ReachableHasInv(s);
    RejectedIsLost(s, t);
  }

  /** A worker that has not ended ends by an event in one of three ways: it decides to return, it is stopped
      at the top of its loop, or a task it waits for has lost its promotion.  The tasks it had in flight
      besides stay in flight. */
  lemma WorkersEndInThreeWays(s: System, event: Event, worker: WorkerId)
    requires Reachable(s) && worker in s.workers && !HasEnded(s.workers[worker].pc)
    ensures var n := Apply(s, event);
      && worker in n.workers
      && (n.workers[worker].pc.FailedBy? <==> FailingDrop(s, event, worker))
      && (n.workers[worker].pc.FailedBy? ==>
            && n.workers[worker].pc.job == s.tasks[event.task].job && LostPromotion(s, n.workers[worker].pc.job)
            && InFlight(n, worker) == InFlight(s, worker) - {event.task})
      && (n.workers[worker].pc.Returned? <==>
            && event == Decide(worker) && s.workers[worker].drain
            && s.workers[worker].pc == Claimed([], false) && InFlight(s, worker) == {})
      && (n.workers[worker].pc.Stopped? <==> event == Stop(worker) && s.workers[worker].pc.Looping?)
  {
    hide Reachable, Inv, LostPromotion, AdvanceTask;
    ReachableHasInv(s);
    if FailingDrop(s, event, worker) {
      RejectedIsLost(s, event.task);
    }
  }

  /** ... and then it does nothing more. */
  lemma EndedStep(s: System, event: Event, worker: WorkerId)
    requires worker in s.workers && HasEnded(s.workers[worker].pc)
    ensures worker in Apply(s, event).workers && Apply(s, event).workers[worker] == s.workers[worker]
  {
    hide AdvanceTask;
  }

  // ------------------------------------------------------------------ over every run

  ghost predicate FailuresAreLost(s: System) {
    forall worker :: worker in s.workers && s.workers[worker].pc.FailedBy? ==> s.log[CancelWon(s.workers[worker].pc.job)] > 0
  }

  lemma StepKeepsFailures(s: System, event: Event)
    requires Inv(s) && FailuresAreLost(s)
    ensures FailuresAreLost(Apply(s, event))
  {
    hide Inv, AdvanceTask;
    var n := Apply(s, event);
    forall worker | worker in n.workers && n.workers[worker].pc.FailedBy? ensures n.log[CancelWon(n.workers[worker].pc.job)] > 0 {
      if event.Drop? && event.task in s.tasks && s.tasks[event.task].rejected {
        RejectedIsLost(s, event.task);
      }
    }
  }

  lemma {:induction false} RunKeepsFailures(s: System, events: seq<Event>)
    requires Inv(s) && FailuresAreLost(s)
    ensures FailuresAreLost(Run(s, events))
    decreases |events|
  {
    hide Inv, Apply, FailuresAreLost;
    if events != [] {
      ApplyKeepsInv(s, events[0]);
      StepKeepsFailures(s, events[0]);
      RunKeepsFailures(Apply(s, events[0]), events[1..]);
    }
  }

  /** In every reachable state the job a failed worker failed by was cancelled by `requestCancel` and never
      started. */
  lemma FailedWorkersLostAPromotion(s: System, worker: WorkerId)
    requires Reachable(s) && worker in s.workers && s.workers[worker].pc.FailedBy?
    ensures LostPromotion(s, s.workers[worker].pc.job)
  {
    hide Inv, Run, LostPromotion;
    var start: System, events: seq<Event> :| WellFormedStart(start) && s == Run(start, events);
    StartHasInv(start);
    RunKeepsFailures(start, events);
    RunKeepsInv(start, events);
    CancelWonIsLost(s, s.workers[worker].pc.job);
  }

  // ------------------------------------------------------------------ it happens

  /** A cancelled job with the one task on it and the worker that waits for the task. */
  ghost function Lost(job: JobId, input: StructuredValue, worker: WorkerId, claims: map<JobId, WorkerId>, task: Task): System {
    var cancelled := NewRecord(input).(state := Cancelled, error := Some(EXECUTION_CANCELLED));
    System(StoreState([job], map[job := cancelled], map[], claims, {}), map[0 := task], 1,
           map[worker := Worker(1, true, Racing({0}))], {}, multiset{Inserted(job), CancelWon(job)})
  }

  ghost function Promoting(job: JobId, input: StructuredValue, worker: WorkerId, pc: WorkerPc): System {
    Tiny(job, input, map[worker := Worker(1, true, pc)], map[job := worker],
         map[0 := Task(job, worker, Promote(NewRecord(input)), 0, false)])
  }

  lemma WorkerWaits(job: JobId, worker: WorkerId, input: StructuredValue)
    ensures Apply(Promoting(job, input, worker, Claimed([], true)), Decide(worker)) == Promoting(job, input, worker, Racing({0}))
  {
    var s := Promoting(job, input, worker, Claimed([], true));
    assert InFlight(s, worker) == {0};
  }

  lemma JobIsCancelled(job: JobId, worker: WorkerId, input: StructuredValue)
    ensures Apply(Promoting(job, input, worker, Racing({0})), Event.RequestCancel(job))
         == Lost(job, input, worker, map[job := worker], Task(job, worker, Promote(NewRecord(input)), 0, false))
  {
  }

  lemma PromotionThrows(job: JobId, worker: WorkerId, input: StructuredValue, choice: Choice)
    ensures Apply(Lost(job, input, worker, map[job := worker], Task(job, worker, Promote(NewRecord(input)), 0, false)), Advance(0, choice))
         == Lost(job, input, worker, map[job := worker], Task(job, worker, Release, 0, true))
  {
    var task := Task(job, worker, Promote(NewRecord(input)), 0, false);
    var s := Lost(job, input, worker, map[job := worker], task);
    assert AdvanceTask(s.store, s.capabilities, task, choice) == Outcome(s.store, Task(job, worker, Release, 0, true), multiset{}, true);
    hide AdvanceTask;
  }

  lemma ClaimIsReleased(job: JobId, worker: WorkerId, input: StructuredValue, choice: Choice)
    ensures Apply(Lost(job, input, worker, map[job := worker], Task(job, worker, Release, 0, true)), Advance(0, choice))
         == Lost(job, input, worker, map[], Task(job, worker, Settled, 0, true))
  {
    var task := Task(job, worker, Release, 0, true);
    var s := Lost(job, input, worker, map[job := worker], task);
    assert map[job := worker] - {job} == map[];
    assert s.store.ReleaseClaim(job, worker) == s.store.(claims := map[]);
    assert Continue(s.store, s.capabilities, task, choice) == Task(job, worker, Settled, 0, true);
    assert AdvanceTask(s.store, s.capabilities, task, choice)
        == Outcome(s.store.(claims := map[]), Task(job, worker, Settled, 0, true), multiset{}, false);
    assert s.log + multiset{} == s.log;
    hide AdvanceTask;
  }

  /** From the state that `QueuedJobWithATask` reaches: the worker waits for its task, the job is cancelled,
      the promotion throws, and the worker fails. */
  lemma LostPromotionFailsTheWorker(job: JobId, worker: WorkerId, input: StructuredValue, choice: Choice)
    ensures Run(Promoting(job, input, worker, Claimed([], true)),
                [Decide(worker), Event.RequestCancel(job), Advance(0, choice), Advance(0, choice), Drop(0)]).workers
         == map[worker := Worker(1, true, FailedBy(job))]
  {
    var s := Promoting(job, input, worker, Claimed([], true));
    assert Apply(Lost(job, input, worker, map[], Task(job, worker, Settled, 0, true)), Drop(0)).workers
        == map[worker := Worker(1, true, FailedBy(job))];
    hide Apply, Lost, Promoting;
    WorkerWaits(job, worker, input);
    JobIsCancelled(job, worker, input);
    PromotionThrows(job, worker, input, choice);
    ClaimIsReleased(job, worker, input, choice);
    RunOfFive(s, Decide(worker), Event.RequestCancel(job), Advance(0, choice), Advance(0, choice), Drop(0));
  }
}

/** Where the result or the error of a job comes from, over every run (lib/executor.ts:399-558). */
module ExecutorEndings {
  import opened Wrappers
  import opened StructuredValues
  import opened ExecutorStore
  import opened Executor
  import opened ExecutorInvariant
  import opened ExecutorTheorems

  /** How a job ends. */
  datatype Ending = WithResult(value: StructuredValue) | WithFailure(error: JobError) | WithCancellation(error: JobError)

  /** The ending a record shows. */
  ghost predicate ShowsEnding(record: Record, ending: Ending) {
    match ending
    case WithResult(value) => record.state.Completed? && record.result == Some(value)
    case WithFailure(error) => record.state.Failed? && record.error == Some(error)
    case WithCancellation(error) => record.state.Cancelled? && record.error == Some(error)
  }

  /** The ending a program counter is about to record. */
  function EndingAt(pc: Pc): Option<Ending> {
    match pc
    case Complete(value) => Some(WithResult(value))
    case Fail(error) => Some(WithFailure(error))
    case CancelJob(error) => Some(WithCancellation(error))
    case _ => None
  }

  /** What happened to `job` calls for the ending: its guest finished with that value; its start threw that
      error, or the guest threw it and it is no cancellation, or its progress could not be loaded, or its
      capability is missing; the guest threw that cancellation, or a cancel request found the job queued. */
  ghost predicate Due(log: multiset<Action>, job: JobId, ending: Ending) {
    match ending
    case WithResult(value) => log[GuestFinished(job, value)] > 0
    case WithFailure(error) =>
      || log[StartThrew(job, error)] > 0 || log[GuestThrew(job, error, false)] > 0 || log[LoadThrew(job, error)] > 0
      || (error == MISSING_CAPABILITY && log[CapabilityMissing(job)] > 0)
    case WithCancellation(error) =>
      log[GuestThrew(job, error, true)] > 0 || (error == EXECUTION_CANCELLED && log[CancelWon(job)] > 0)
  }

  ghost predicate Recorded(s: System, job: JobId, ending: Ending) {
    job in s.store.jobs && ShowsEnding(s.store.jobs[job], ending)
  }

  /** Task `t` is about to record the ending of `job`. */
  ghost predicate Recording(s: System, t: TaskId, job: JobId, ending: Ending) {
    t in s.tasks && s.tasks[t].job == job && EndingAt(s.tasks[t].pc) == Some(ending)
  }

  /** What is due is recorded or about to be. */
  ghost predicate Kept(s: System, job: JobId, ending: Ending) {
    Recorded(s, job, ending) || exists t :: Recording(s, t, job, ending)
  }

  /** A job that has ended did so before the run or as was due. */
  ghost predicate Explained(start: StoreState, s: System, job: JobId)
    requires job in s.store.jobs
  {
    var record := s.store.jobs[job];
    record.state.Terminal() && Find(start.jobs, job) != Some(record)
    ==> exists ending :: ShowsEnding(record, ending) && Due(s.log, job, ending)
  }

  ghost predicate EndingsOk(start: StoreState, s: System) {
    && (forall t, ending :: t in s.tasks && EndingAt(s.tasks[t].pc) == Some(ending) ==> Due(s.log, s.tasks[t].job, ending))
    && (forall job :: job in s.store.jobs ==> Explained(start, s, job))
    && (forall job: JobId, ending :: Due(s.log, job, ending) ==> Kept(s, job, ending))
  }

  // ------------------------------------------------------------------ what one step of a task does

  /** One action alone calls for the ending. */
  predicate CallsFor(action: Action, ending: Ending) {
    match ending
    case WithResult(value) => action.GuestFinished? && action.value == value
    case WithFailure(error) =>
      || (action.StartThrew? && action.error == error) || (action.GuestThrew? && action.error == error && !action.isCancellation)
      || (action.LoadThrew? && action.error == error) || (action.CapabilityMissing? && error == MISSING_CAPABILITY)
    case WithCancellation(error) =>
      (action.GuestThrew? && action.error == error && action.isCancellation) || (action.CancelWon? && error == EXECUTION_CANCELLED)
  }

  lemma DueOfOne(action: Action, job: JobId, ending: Ending)
    ensures Due(multiset{action}, job, ending) <==> action.job == job && CallsFor(action, ending)
    ensures !Due(multiset{}, job, ending)
  {
  }

  /** A task that moves to an ending was just told of it, and is told of nothing else. */
  lemma MovesAreToldOf(store: StoreState, capabilities: set<string>, task: Task, choice: Choice, ending: Ending)
    requires task.pc.Load? ==> task.job in store.progress
    ensures var reply := ReplyTo(store, capabilities, task, choice);
      (reply.Some? && CallsFor(reply.value, ending)) <==> EndingAt(Continue(store, capabilities, task, choice).pc) == Some(ending)
  {
  }

  lemma MovesAreDue(store: StoreState, capabilities: set<string>, task: Task, choice: Choice, job: JobId, ending: Ending)
    requires task.pc.Load? ==> task.job in store.progress
    ensures Due(Replies(store, capabilities, task, choice), job, ending) <==>
      job == task.job && EndingAt(Continue(store, capabilities, task, choice).pc) == Some(ending)
  {
    hide Due, CallsFor, Continue, EndingAt, ReplyTo;
    MovesAreToldOf(store, capabilities, task, choice, ending);
    ReplyIsOwn(store, capabilities, task, choice);
    var reply := ReplyTo(store, capabilities, task, choice);
    DueOfOne(if reply.Some? then reply.value else Inserted(job), job, ending);
  }

  /** Calls that are no replies call for nothing. */
  lemma CallsAreNotDue(task: Task, next: Task, job: JobId, ending: Ending)
    ensures !Due(CallActions(task, next), job, ending)
  {
  }

  lemma DueAdds(a: multiset<Action>, b: multiset<Action>, job: JobId, ending: Ending)
    ensures Due(a + b, job, ending) <==> Due(a, job, ending) || Due(b, job, ending)
  {
  }

  /** What a step adds to what is due. */
  lemma StepIsDue(s: System, t: TaskId, choice: Choice, job: JobId, ending: Ending)
    requires Inv(s) && t in s.tasks
    ensures var task, n := s.tasks[t], TaskStep(s, t, choice);
      var o := AdvanceTask(s.store, s.capabilities, task, choice);
      Due(n.log, job, ending) <==>
        Due(s.log, job, ending) || (!o.threw && job == task.job && EndingAt(o.task.pc) == Some(ending))
  {
    hide Inv, Continue, CallActions, Replies, Due, EndingAt, Perform;
    var task := s.tasks[t];
    var next := Continue(s.store, s.capabilities, task, choice);
    LoadsFindProgress(s, t);
    MovesAreDue(s.store, s.capabilities, task, choice, job, ending);
    var o := AdvanceTask(s.store, s.capabilities, task, choice);
    var replies := Replies(s.store, s.capabilities, task, choice);
    CallsAreNotDue(task, next, job, ending);
    DueAdds(CallActions(task, next), replies, job, ending);
    DueAdds(s.log, o.actions, job, ending);
    assert s.log + multiset{} == s.log;
  }

  lemma LoadsFindProgress(s: System, t: TaskId)
    requires Inv(s) && t in s.tasks
    ensures s.tasks[t].pc.Load? ==> s.tasks[t].job in s.store.progress
  {
    hide JobOk, TaskOk;
    assert TaskHolds(s, t) && JobOk(ViewIn(s, s.tasks[t].job));
    if s.tasks[t].pc.Load? {
      LoadingFindsProgress(ViewIn(s, s.tasks[t].job), s.tasks[t]);
    }
  }

  /** A step writes an ending exactly when its task was about to. */
  lemma EndingIsWritten(store: StoreState, capabilities: set<string>, task: Task, choice: Choice)
    ensures var o := AdvanceTask(store, capabilities, task, choice);
      && (EndingAt(task.pc).Some? && !o.threw ==> task.job in o.store.jobs && ShowsEnding(o.store.jobs[task.job], EndingAt(task.pc).value))
      && (EndingAt(task.pc).Some? && !o.threw ==> EndingAt(o.task.pc).None?)
      && (EndingAt(task.pc).None? && task.job in o.store.jobs && o.store.jobs[task.job].state.Terminal() ==>
            Find(o.store.jobs, task.job) == Find(store.jobs, task.job))
  {
    hide Replies, CallActions;
    EndingsAreTerminalUpdates(task.pc);
    NextAfterEnding(store, capabilities, task, choice);
    if CallAt(task.pc).CallUpdate? && !CallAt(task.pc).patch.state.Terminal() {
      hide Continue;
    }
  }

  lemma NextAfterEnding(store: StoreState, capabilities: set<string>, task: Task, choice: Choice)
    ensures EndingAt(task.pc).Some? ==> EndingAt(Continue(store, capabilities, task, choice).pc).None?
  {
  }

  lemma EndingsAreTerminalUpdates(pc: Pc)
    ensures EndingAt(pc).Some? <==> CallAt(pc).CallUpdate? && CallAt(pc).patch.state.Terminal()
    ensures EndingAt(pc).Some? ==> forall record: Record :: ShowsEnding(ApplyPatch(record, CallAt(pc).patch), EndingAt(pc).value)
  {
  }

  lemma EndingsDoNotThrow(s: System, t: TaskId, choice: Choice)
    requires Inv(s) && t in s.tasks
    ensures AdvanceTask(s.store, s.capabilities, s.tasks[t], choice).threw ==>
      s.tasks[t].pc.Promote? && AdvanceTask(s.store, s.capabilities, s.tasks[t], choice).task.pc.Release?
  {
    hide JobOk, AdvanceTask;
    assert TaskHolds(s, t) && JobOk(ViewIn(s, s.tasks[t].job));
    AdvanceKeepsView(s, s.tasks[t], choice);
  }

  // ------------------------------------------------------------------ every event

  lemma StartHasEndingsOk(start: System)
    requires WellFormedStart(start)
    ensures EndingsOk(start.store, start)
  {
  }

  lemma KeptFrame(s: System, n: System, job: JobId, ending: Ending)
    requires Kept(s, job, ending)
    requires Recorded(s, job, ending) ==> Recorded(n, job, ending)
    requires forall t :: Recording(s, t, job, ending) ==> Recording(n, t, job, ending) || Recorded(n, job, ending)
    ensures Kept(n, job, ending)
  {
    hide Recording, Recorded;
  }

  /** A step that touches neither tasks about to end, nor ended records, nor what is due. */
  lemma QuietStep(start: StoreState, s: System, n: System)
    requires EndingsOk(start, s)
    requires forall job: JobId, ending :: Due(n.log, job, ending) <==> Due(s.log, job, ending)
    requires forall t :: t in n.tasks && EndingAt(n.tasks[t].pc).Some? ==> t in s.tasks && n.tasks[t] == s.tasks[t]
    requires forall t :: t in s.tasks && EndingAt(s.tasks[t].pc).Some? ==> t in n.tasks && n.tasks[t] == s.tasks[t]
    requires forall job :: job in n.store.jobs && n.store.jobs[job].state.Terminal() ==>
      Find(s.store.jobs, job) == Some(n.store.jobs[job])
    requires forall job :: job in s.store.jobs && s.store.jobs[job].state.Terminal() ==>
      Find(n.store.jobs, job) == Some(s.store.jobs[job])
    ensures EndingsOk(start, n)
  {
    hide Due;
    forall job | job in n.store.jobs ensures Explained(start, n, job) {
      if n.store.jobs[job].state.Terminal() {
        assert Explained(start, s, job);
      }
    }
    forall job: JobId, ending | Due(n.log, job, ending) ensures Kept(n, job, ending) {
      KeptFrame(s, n, job, ending);
    }
  }

  lemma TaskStepKeepsEndings(start: StoreState, s: System, t: TaskId, choice: Choice)
    requires Inv(s) && EndingsOk(start, s) && t in s.tasks
    ensures EndingsOk(start, TaskStep(s, t, choice))
  {
    hide Inv, AdvanceTask, Due, EndingAt, ShowsEnding, Kept, Explained;
    var n := TaskStep(s, t, choice);
    forall u, ending | u in n.tasks && EndingAt(n.tasks[u].pc) == Some(ending) ensures Due(n.log, n.tasks[u].job, ending) {
      MovingIsDue(start, s, t, choice, u, ending);
    }
    forall job | job in n.store.jobs ensures Explained(start, n, job) {
      StaysExplained(start, s, t, choice, job);
    }
    forall job: JobId, ending | Due(n.log, job, ending) ensures Kept(n, job, ending) {
      DueIsKept(start, s, t, choice, job, ending);
    }
  }

  lemma MovingIsDue(start: StoreState, s: System, t: TaskId, choice: Choice, u: TaskId, ending: Ending)
    requires Inv(s) && EndingsOk(start, s) && t in s.tasks
    requires var n := TaskStep(s, t, choice); u in n.tasks && EndingAt(n.tasks[u].pc) == Some(ending)
    ensures var n := TaskStep(s, t, choice); Due(n.log, n.tasks[u].job, ending)
  {
    hide Inv, AdvanceTask, Due, ShowsEnding, Kept, Explained;
    AdvanceTouchesItsJob(s.store, s.capabilities, s.tasks[t], choice);
    EndingsDoNotThrow(s, t, choice);
    StepIsDue(s, t, choice, s.tasks[u].job, ending);
  }

  lemma StaysExplained(start: StoreState, s: System, t: TaskId, choice: Choice, job: JobId)
    requires Inv(s) && EndingsOk(start, s) && t in s.tasks && job in TaskStep(s, t, choice).store.jobs
    ensures Explained(start, TaskStep(s, t, choice), job)
  {
    hide Inv, AdvanceTask, Due, ShowsEnding, Kept, EndingAt;
    var task, n := s.tasks[t], TaskStep(s, t, choice);
    AdvanceTouchesItsJob(s.store, s.capabilities, task, choice);
    EndingIsWritten(s.store, s.capabilities, task, choice);
    EndingsDoNotThrow(s, t, choice);
    assert job in s.store.jobs && Explained(start, s, job);
    forall ending ensures Due(s.log, job, ending) ==> Due(n.log, job, ending) {
      StepIsDue(s, t, choice, job, ending);
    }
    if job == task.job && EndingAt(task.pc).Some? {
      assert Due(s.log, task.job, EndingAt(task.pc).value);
      EndingsAreNotPromotions(task.pc);
    }
  }

  lemma EndingsAreNotPromotions(pc: Pc)
    ensures EndingAt(pc).Some? ==> !pc.Promote?
  {
  }

  lemma DueIsKept(start: StoreState, s: System, t: TaskId, choice: Choice, job: JobId, ending: Ending)
    requires Inv(s) && EndingsOk(start, s) && t in s.tasks && Due(TaskStep(s, t, choice).log, job, ending)
    ensures Kept(TaskStep(s, t, choice), job, ending)
  {
    hide Inv, AdvanceTask, Due, ShowsEnding, Explained, EndingAt;
    var task, n := s.tasks[t], TaskStep(s, t, choice);
    StepIsDue(s, t, choice, job, ending);
    AdvanceTouchesItsJob(s.store, s.capabilities, task, choice);
    if Due(s.log, job, ending) {
      assert Kept(s, job, ending);
      RecordedStays(s, t, choice, job, ending);
      forall u | Recording(s, u, job, ending) ensures Recording(n, u, job, ending) || Recorded(n, job, ending) {
        RecordingCarriesOn(s, t, choice, u, job, ending);
      }
      KeptFrame(s, n, job, ending);
    } else {
      assert Recording(n, t, job, ending);
    }
  }

  lemma RecordingCarriesOn(s: System, t: TaskId, choice: Choice, u: TaskId, job: JobId, ending: Ending)
    requires Inv(s) && t in s.tasks && Recording(s, u, job, ending)
    ensures Recording(TaskStep(s, t, choice), u, job, ending) || Recorded(TaskStep(s, t, choice), job, ending)
  {
    hide Inv, AdvanceTask, ShowsEnding, EndingAt;
    if u == t {
      EndingsDoNotThrow(s, t, choice);
      EndingsAreNotPromotions(s.tasks[t].pc);
      EndingIsWritten(s.store, s.capabilities, s.tasks[t], choice);
    }
  }

  lemma RecordedStays(s: System, t: TaskId, choice: Choice, job: JobId, ending: Ending)
    requires Inv(s) && t in s.tasks
    ensures Recorded(s, job, ending) ==> Recorded(TaskStep(s, t, choice), job, ending)
  {
    hide Inv;
    if Recorded(s, job, ending) {
      TaskChange(s, t, choice, job);
    }
  }

  /** A cancel request that finds its job queued ends it at once. */
  lemma CancelKeepsEndings(start: StoreState, s: System, job: JobId)
    requires Inv(s) && EndingsOk(start, s)
    ensures EndingsOk(start, CancelStep(s, job))
  {
    hide Inv, EndingAt;
    var n := CancelStep(s, job);
    if s.store.CancelReplyFor(job).CancelledNow? {
      var won := WithCancellation(EXECUTION_CANCELLED);
      forall other: JobId, ending
        ensures Due(n.log, other, ending) <==> Due(s.log, other, ending) || (other == job && ending == won)
      {
      }
      assert Recorded(n, job, won);
      hide Due;
      forall other | other in n.store.jobs ensures Explained(start, n, other) {
        if other == job {
          assert ShowsEnding(n.store.jobs[job], won) && Due(n.log, job, won);
        } else {
          assert Explained(start, s, other);
        }
      }
      forall other: JobId, ending | Due(n.log, other, ending) ensures Kept(n, other, ending) {
        if Due(s.log, other, ending) {
          KeptFrame(s, n, other, ending);
        }
      }
    } else {
      QuietStep(start, s, n);
    }
  }

  lemma ApplyKeepsEndings(start: StoreState, s: System, event: Event)
    requires Inv(s) && EndingsOk(start, s)
    ensures EndingsOk(start, Apply(s, event))
  {
    hide Inv, EndingsOk, AdvanceTask, EndingAt;
    match event
    case Advance(t, choice) =>
      if t in s.tasks {
        TaskStepKeepsEndings(start, s, t, choice);
      }
    case Spawn(worker) =>
      NextTaskIsNew(s);
      assert EndingAt(Fetch).None? by { FetchIsNoEnding(); }
      QuietStep(start, s, SpawnStep(s, worker));
    case Claim(worker) => QuietStep(start, s, ClaimStep(s, worker));
    case Drop(t) =>
      assert EndingAt(Settled).None? by { FetchIsNoEnding(); }
      QuietStep(start, s, DropStep(s, t));
    case EnqueueJob(job, input) => EnqueueKeepsEndings(start, s, job, input);
    case RequestCancel(job) => CancelKeepsEndings(start, s, job);
    case _ => QuietStep(start, s, WorkerStep(s, event));
  }

  lemma FetchIsNoEnding()
    ensures EndingAt(Fetch).None? && EndingAt(Settled).None?
  {
  }

  lemma EnqueueKeepsEndings(start: StoreState, s: System, job: JobId, input: StructuredValue)
    requires EndingsOk(start, s)
    ensures EndingsOk(start, EnqueueStep(s, job, input))
  {
    hide EndingsOk, EndingAt;
    var n := EnqueueStep(s, job, input);
    forall other: JobId, ending ensures Due(n.log, other, ending) <==> Due(s.log, other, ending) {
    }
    QuietStep(start, s, n);
  }

  lemma {:induction false} RunKeepsEndings(start: StoreState, s: System, events: seq<Event>)
    requires Inv(s) && EndingsOk(start, s)
    ensures Inv(Run(s, events)) && EndingsOk(start, Run(s, events))
    decreases |events|
  {
    hide Inv, Apply, EndingsOk;
    if events != [] {
      ApplyKeepsInv(s, events[0]);
      ApplyKeepsEndings(start, s, events[0]);
      RunKeepsEndings(start, Apply(s, events[0]), events[1..]);
    }
  }

  // ------------------------------------------------------------------ over every run

  lemma RunHasEndingsOk(start: System, events: seq<Event>)
    requires WellFormedStart(start)
    ensures Inv(Run(start, events)) && EndingsOk(start.store, Run(start, events))
  {
    hide Run, WellFormedStart, Inv, EndingsOk;
    StartHasInv(start);
    StartHasEndingsOk(start);
    RunKeepsEndings(start.store, start, events);
  }

  /** In every run, a job completed in it has as its result a value its guest finished with, and keeps
      its whole record for ever. */
  lemma ResultsComeFromTheGuest(start: System, events: seq<Event>, job: JobId, more: seq<Event>)
    requires WellFormedStart(start)
    requires var s := Run(start, events);
      job in s.store.jobs && s.store.jobs[job].state.Completed? && Find(start.store.jobs, job) != Some(s.store.jobs[job])
    ensures var s := Run(start, events);
      && s.store.jobs[job].result.Some?
      && s.log[GuestFinished(job, s.store.jobs[job].result.value)] > 0
      && Find(Run(s, more).store.jobs, job) == Some(s.store.jobs[job])
  {
    hide Run, WellFormedStart, Inv;
    RunHasEndingsOk(start, events);
    assert Explained(start.store, Run(start, events), job);
    TerminalPersists(Run(start, events), more, job);
  }

  /** In every run, a job failed in it has exactly the error of its start, or one its guest threw on being
      resumed or cancelled that is no cancellation, or the error of loading its progress, or that of a missing
      capability; and keeps it for ever. */
  lemma FailuresAreExplained(start: System, events: seq<Event>, job: JobId, more: seq<Event>)
    requires WellFormedStart(start)
    requires var s := Run(start, events);
      job in s.store.jobs && s.store.jobs[job].state.Failed? && Find(start.store.jobs, job) != Some(s.store.jobs[job])
    ensures var s := Run(start, events);
      var record := s.store.jobs[job];
      && record.error.Some?
      && ( || s.log[StartThrew(job, record.error.value)] > 0
           || s.log[GuestThrew(job, record.error.value, false)] > 0
           || s.log[LoadThrew(job, record.error.value)] > 0
           || (s.log[CapabilityMissing(job)] > 0 && record.error.value == MISSING_CAPABILITY))
      && Find(Run(s, more).store.jobs, job) == Some(record)
  {
    hide Run, WellFormedStart, Inv;
    RunHasEndingsOk(start, events);
    assert Explained(start.store, Run(start, events), job);
    TerminalPersists(Run(start, events), more, job);
  }

  /** In every run, a job cancelled in it was queued when a cancel request came, or its guest threw, on being
      resumed or cancelled, a cancellation with exactly the recorded error; and stays cancelled for ever. */
  lemma CancellationsAreExplained(start: System, events: seq<Event>, job: JobId, more: seq<Event>)
    requires WellFormedStart(start)
    requires var s := Run(start, events);
      job in s.store.jobs && s.store.jobs[job].state.Cancelled? && Find(start.store.jobs, job) != Some(s.store.jobs[job])
    ensures var s := Run(start, events);
      var record := s.store.jobs[job];
      && record.error.Some?
      && ( || s.log[GuestThrew(job, record.error.value, true)] > 0
           || (s.log[CancelWon(job)] > 0 && record.error.value == EXECUTION_CANCELLED))
      && Find(Run(s, more).store.jobs, job) == Some(record)
  {
    hide Run, WellFormedStart, Inv;
    RunHasEndingsOk(start, events);
    assert Explained(start.store, Run(start, events), job);
    TerminalPersists(Run(start, events), more, job);
  }

  /** Conversely nothing a job was told is lost: what it finished with, what its start or its guest threw, a
      failed load, a missing capability and a won cancel are on its record, in the state each calls for, or its
      task is about to put them there; and a job is told one such thing only. */
  lemma EndingsAreRecorded(start: System, events: seq<Event>, job: JobId, ending: Ending)
    requires WellFormedStart(start) && Due(Run(start, events).log, job, ending)
    ensures Kept(Run(start, events), job, ending)
    ensures forall other :: Due(Run(start, events).log, job, other) ==> other == ending
  {
    hide Run, WellFormedStart, Inv, Kept, Due;
    RunHasEndingsOk(start, events);
    var s := Run(start, events);
    forall other | Due(s.log, job, other) ensures other == ending {
      KeptIsUnique(s, job, ending, other);
    }
  }

  lemma RecordingIsLive(s: System, t: TaskId, job: JobId, ending: Ending)
    requires Inv(s) && Recording(s, t, job, ending)
    ensures job in s.store.jobs && !s.store.jobs[job].state.Terminal()
    ensures forall u, other :: Recording(s, u, job, other) ==> other == ending
  {
    hide JobOk, EndingAt;
    assert TaskHolds(s, t);
    EndingsAreLive(ViewIn(s, job), s.tasks[t]);
  }

  lemma EndingsAreLive(v: JobView, task: Task)
    requires TaskOk(v, task) && EndingAt(task.pc).Some?
    ensures In(v, Running) || In(v, Waiting)
  {
  }

  lemma KeptIsUnique(s: System, job: JobId, a: Ending, b: Ending)
    requires Inv(s) && Kept(s, job, a) && Kept(s, job, b)
    ensures a == b
  {
    hide Inv, Recording;
    if t :| Recording(s, t, job, a) {
      RecordingIsLive(s, t, job, a);
    } else if t :| Recording(s, t, job, b) {
      RecordingIsLive(s, t, job, b);
    }
  }

  // ------------------------------------------------------------------ where progress comes from

  /** The stored progress of a job, and what its task is about to store or is to show, is what its guest
      suspended with. */
  ghost predicate ProgressOk(start: StoreState, s: System) {
    && (forall job :: job in s.store.progress ==>
          Find(start.progress, job) == Some(s.store.progress[job]) || s.log[GuestSuspended(job, s.store.progress[job])] > 0)
    && (forall t :: t in s.tasks && (s.tasks[t].pc.Save? || s.tasks[t].pc.Suspend?) ==>
          s.log[GuestSuspended(s.tasks[t].job, s.tasks[t].pc.dumped)] > 0)
  }

  /** A task saves what its guest has just suspended with. */
  lemma SavesAreToldOf(store: StoreState, capabilities: set<string>, task: Task, choice: Choice)
    ensures var next := Continue(store, capabilities, task, choice);
      && (next.pc.Save? ==> Replies(store, capabilities, task, choice)[GuestSuspended(task.job, next.pc.dumped)] > 0)
      && (next.pc.Suspend? ==> task.pc == Save(next.pc.dumped))
  {
  }

  lemma ProgressAfterCall(store: StoreState, task: Task)
    requires Perform(store, task.job, task.worker, CallAt(task.pc)).Success?
    ensures var after := Perform(store, task.job, task.worker, CallAt(task.pc)).value;
      forall job :: job in after.progress ==>
        Find(store.progress, job) == Some(after.progress[job]) || (job == task.job && task.pc == Save(after.progress[job]))
  {
  }

  lemma TaskStepKeepsProgress(start: StoreState, s: System, t: TaskId, choice: Choice)
    requires Inv(s) && ProgressOk(start, s) && t in s.tasks
    ensures ProgressOk(start, TaskStep(s, t, choice))
  {
    hide Inv, Continue, Perform, CallAt, CallActions, Replies;
    var task := s.tasks[t];
    EndingsDoNotThrow(s, t, choice);
    AdvanceTouchesItsJob(s.store, s.capabilities, task, choice);
    SavesAreToldOf(s.store, s.capabilities, task, choice);
    if Perform(s.store, task.job, task.worker, CallAt(task.pc)).Success? {
      ProgressAfterCall(s.store, task);
    }
  }

  lemma ApplyKeepsProgress(start: StoreState, s: System, event: Event)
    requires Inv(s) && ProgressOk(start, s)
    ensures ProgressOk(start, Apply(s, event))
  {
    hide Inv, AdvanceTask, ProgressOk;
    match event
    case Advance(t, choice) =>
      if t in s.tasks {
        TaskStepKeepsProgress(start, s, t, choice);
      }
    case Spawn(worker) =>
      NextTaskIsNew(s);
      QuietForProgress(start, s, SpawnStep(s, worker));
    case Claim(worker) => QuietForProgress(start, s, ClaimStep(s, worker));
    case Drop(t) => QuietForProgress(start, s, DropStep(s, t));
    case EnqueueJob(job, input) => QuietForProgress(start, s, EnqueueStep(s, job, input));
    case RequestCancel(job) => QuietForProgress(start, s, CancelStep(s, job));
    case _ => QuietForProgress(start, s, WorkerStep(s, event));
  }

  lemma QuietForProgress(start: StoreState, s: System, n: System)
    requires ProgressOk(start, s)
    requires forall job :: job in n.store.progress ==> Find(s.store.progress, job) == Some(n.store.progress[job])
    requires forall t :: t in n.tasks && (n.tasks[t].pc.Save? || n.tasks[t].pc.Suspend?) ==> t in s.tasks && n.tasks[t] == s.tasks[t]
    requires forall job, dumped :: s.log[GuestSuspended(job, dumped)] <= n.log[GuestSuspended(job, dumped)]
    ensures ProgressOk(start, n)
  {
  }

  lemma {:induction false} RunKeepsProgress(start: StoreState, s: System, events: seq<Event>)
    requires Inv(s) && ProgressOk(start, s)
    ensures Inv(Run(s, events)) && ProgressOk(start, Run(s, events))
    decreases |events|
  {
    hide Inv, Apply, ProgressOk;
    if events != [] {
      ApplyKeepsInv(s, events[0]);
      ApplyKeepsProgress(start, s, events[0]);
      RunKeepsProgress(start, Apply(s, events[0]), events[1..]);
    }
  }

  /** In every run, what a guest is resumed or cancelled from is its stored progress, and stored progress is
      what the guest suspended with or what the store began with. */
  lemma GuestsResumeFromTheirSuspension(start: System, events: seq<Event>, job: JobId, t: TaskId)
    requires WellFormedStart(start)
    ensures var s := Run(start, events);
      && (job in s.store.progress ==>
            Find(start.store.progress, job) == Some(s.store.progress[job]) || s.log[GuestSuspended(job, s.store.progress[job])] > 0)
      && (t in s.tasks && (s.tasks[t].pc.Resume? || s.tasks[t].pc.Handle?) ==>
            Find(s.store.progress, s.tasks[t].job) == Some(s.tasks[t].pc.progress))
  {
    hide Run, WellFormedStart, Inv;
    StartHasInv(start);
    assert ProgressOk(start.store, start) by { StartHasProgressOk(start); }
    RunKeepsProgress(start.store, start, events);
    if t in Run(start, events).tasks {
      ResumedFromStored(Run(start, events), t);
    }
  }

  lemma StartHasProgressOk(start: System)
    requires WellFormedStart(start)
    ensures ProgressOk(start.store, start)
  {
  }

  lemma ResumedFromStored(s: System, t: TaskId)
    requires Inv(s) && t in s.tasks
    ensures s.tasks[t].pc.Resume? || s.tasks[t].pc.Handle? ==> Find(s.store.progress, s.tasks[t].job) == Some(s.tasks[t].pc.progress)
  {
    hide JobOk, TaskOk;
    assert TaskHolds(s, t);
    ResumesFromView(ViewIn(s, s.tasks[t].job), s.tasks[t]);
  }

  lemma ResumesFromView(v: JobView, task: Task)
    requires TaskOk(v, task)
    ensures task.pc.Resume? || task.pc.Handle? ==> v.progress == Some(task.pc.progress)
  {
  }
}

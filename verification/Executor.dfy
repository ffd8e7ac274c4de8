/**
 The durable job executor (lib/executor.ts:268-559) as a state machine.

 Any number of workers, each with several tasks in flight, interleave with `enqueue` and `cancel`
 over one store.  A task is a program counter between store calls: `Advance` performs the next call
 and the synchronous code up to the one after it.  Guest execution, `Progress.load` and the
 outcome of a cancellation are the environment's `Choice`.
 */
module Executor {
  import opened Wrappers
  import opened StructuredValues
  import opened ExecutorStore

  type TaskId = nat

  /** What `start`, `resume`, `resumeError` or `cancel` hands back. */
  datatype GuestStep = Finished(value: StructuredValue) | Suspended(dumped: Persisted)

  datatype Attempt = Stepped(step: GuestStep) | Threw(error: JobError, isCancellation: bool)

  datatype Choice = Choice(attempt: Attempt, loadError: Option<JobError>)

  /** The store call, or guest call, a task performs next. */
  datatype Pc =
    | Fetch                       // _processClaimedJob: store.get
    | Promote(record: Record)     // store.update: queued -> running, attempts + 1
    | Launch(record: Record)      // program.start
    | Save(dumped: Persisted)     // _driveExecution: store.saveProgress
    | Suspend(dumped: Persisted)  // store.update: running -> waiting
    | Refetch                     // store.get, whose result is not used
    | Load                        // _resumeWaitingJob: store.loadProgress and Progress.load
    | PollBefore(progress: Persisted)    // store.consumeCancel
    | WakeCancelled(progress: Persisted) // store.update: waiting -> running, then cancel
    | Handle(progress: Persisted)        // awaits the handler called after the poll, then store.update: waiting -> running
    | PollAfter(progress: Persisted)     // store.consumeCancel
    | Resume(progress: Persisted, cancelling: bool) // progress.cancel, or else resume or resumeError
    | Complete(value: StructuredValue)   // store.update: running -> completed
    | Fail(error: JobError)              // _failJob: store.update
    | CancelJob(error: JobError)         // _cancelJob: store.update
    | Delete                      // store.deleteProgress
    | Release                     // the finally block: store.releaseClaim
    | Settled                     // the promise settled; its worker has not dropped it yet

  /** `handlers` counts the try blocks of `_resumeWaitingJob` the call is nested in; `rejected` says that an
      exception went past all of them, so that the promise is rejected when it settles. */
  datatype Task = Task(job: JobId, worker: WorkerId, pc: Pc, handlers: nat, rejected: bool)

  /** Between `claimRunnable` and the next turn of the loop a worker still has to start tasks for
      `pending`; `gotJobs` remembers whether the claim returned any.  `Racing` waits for the first of the
      tasks that were in flight, and `FailedBy` is the end by the rejection of the task of a job. */
  datatype WorkerPc =
    | Looping
    | Claimed(pending: seq<JobId>, gotJobs: bool)
    | Racing(waitingFor: set<TaskId>)
    | Returned
    | Stopped
    | FailedBy(job: JobId)

  datatype Worker = Worker(max: nat, drain: bool, pc: WorkerPc) {
    function Pending(): seq<JobId> {
      if pc.Claimed? then pc.pending else []
    }
  }

  /** Ghost history of the run: `Handled` is a call of a host handler, `Resumed` and `Aborted` are the
      guest resumed with an outcome or with a cancellation.  The replies, from `GuestFinished` on, are what
      the guest, `Progress.load` and the table of capabilities answered a task, whatever it makes of it. */
  datatype Action =
    | Inserted(job: JobId)
    | Promoted(job: JobId)
    | Started(job: JobId)
    | CancelWon(job: JobId)
    | Handled(job: JobId)
    | Resumed(job: JobId)
    | Aborted(job: JobId)
    | GuestFinished(job: JobId, value: StructuredValue)
    | GuestSuspended(job: JobId, dumped: Persisted)
    | StartThrew(job: JobId, error: JobError)
    | GuestThrew(job: JobId, error: JobError, isCancellation: bool)
    | LoadThrew(job: JobId, error: JobError)
    | CapabilityMissing(job: JobId)
  {
    predicate IsReply() {
      GuestFinished? || GuestSuspended? || StartThrew? || GuestThrew? || LoadThrew? || CapabilityMissing?
    }
  }

  datatype System = System(
    store: StoreState,
    tasks: map<TaskId, Task>,
    nextTask: TaskId,
    workers: map<WorkerId, Worker>,
    capabilities: set<string>,
    ghost log: multiset<Action>)

  datatype Event =
    | EnqueueJob(job: JobId, input: StructuredValue)
    | RequestCancel(job: JobId)
    | Open(worker: WorkerId, max: nat, drain: bool)
    | Claim(worker: WorkerId)
    | Spawn(worker: WorkerId)
    | Decide(worker: WorkerId)
    | Stop(worker: WorkerId)
    | Advance(task: TaskId, choice: Choice)
    | Drop(task: TaskId)

  // ------------------------------------------------------------------ the code of one task

  const MISSING_PROGRESS := JobError("MustardSerializationError", "missing stored progress")

  const MISSING_CAPABILITY := JobError("MustardRuntimeError", "Missing capability")

  const INVALID_TRANSITION := JobError("Error", "invalid job transition")

  function NewRecord(input: StructuredValue): Record {
    Record(Queued, input, 0, None, None, None, None)
  }

  function PromotePatch(attempts: nat): Patch {
    Patch(Running, Some(attempts), Put(None), Put(None), Put(None), Put(None))
  }

  function WakePatch(): Patch {
    Patch(Running, None, Put(None), Put(None), Keep, Keep)
  }

  function SuspendPatch(dumped: Persisted): Patch {
    Patch(Waiting, None, Put(Some(dumped.capability)), Put(Some(dumped.args)), Keep, Keep)
  }

  function CompletePatch(value: StructuredValue): Patch {
    Patch(Completed, None, Put(None), Put(None), Put(Some(value)), Put(None))
  }

  function EndPatch(state: JobState, error: JobError): Patch {
    Patch(state, None, Put(None), Put(None), Put(None), Put(Some(error)))
  }

  /** Where the exception of a failed store call goes: to the innermost catch block, which fails
      the job, or past all of them to the finally block. */
  function Raise(task: Task): Task {
    if task.handlers > 0 then task.(pc := Fail(INVALID_TRANSITION), handlers := task.handlers - 1)
    else task.(pc := Release, rejected := true)
  }

  function Drive(step: GuestStep): Pc {
    match step
    case Finished(value) => Complete(value)
    case Suspended(dumped) => Save(dumped)
  }

  /** The writing store call a task makes at a program counter; the reading calls `get` and
      `loadProgress` change nothing. */
  datatype StoreCall =
    | ReadOnly
    | CallUpdate(patch: Patch)
    | CallSave(dumped: Persisted)
    | CallDelete
    | CallRelease
    | CallConsumeCancel

  function CallAt(pc: Pc): StoreCall {
    match pc
    case Promote(record) => CallUpdate(PromotePatch(record.attempts + 1))
    case Save(dumped) => CallSave(dumped)
    case Suspend(dumped) => CallUpdate(SuspendPatch(dumped))
    case PollBefore(_) => CallConsumeCancel
    case WakeCancelled(_) => CallUpdate(WakePatch())
    case Handle(_) => CallUpdate(WakePatch())
    case PollAfter(_) => CallConsumeCancel
    case Complete(value) => CallUpdate(CompletePatch(value))
    case Fail(error) => CallUpdate(EndPatch(Failed, error))
    case CancelJob(error) => CallUpdate(EndPatch(Cancelled, error))
    case Delete => CallDelete
    case Release => CallRelease
    case _ => ReadOnly
  }

  function Perform(store: StoreState, job: JobId, worker: WorkerId, call: StoreCall): Result<StoreState, StoreError> {
    match call
    case ReadOnly => Success(store)
    case CallUpdate(patch) => store.Update(job, patch)
    case CallSave(dumped) => store.SaveProgress(job, dumped)
    case CallDelete => Success(store.DeleteProgress(job))
    case CallRelease => Success(store.ReleaseClaim(job, worker))
    case CallConsumeCancel => Success(store.ConsumeCancel(job))
  }

  /** Where a task is after a call that did not throw; `store` is the store the call was made on. */
  function Continue(store: StoreState, capabilities: set<string>, task: Task, choice: Choice): Task {
    var job := task.job;
    match task.pc
    case Fetch =>
      if job !in store.jobs || store.jobs[job].state.Terminal() then task.(pc := Release)
      else if store.jobs[job].state.Queued? then task.(pc := Promote(store.jobs[job]))
      else if store.jobs[job].state.Waiting? then task.(pc := Load)
      else task.(pc := Release)
    case Promote(record) => task.(pc := Launch(record))
    case Launch(record) =>
      (match choice.attempt
       case Stepped(step) => task.(pc := Drive(step))
       case Threw(error, _) => task.(pc := Fail(error)))
    case Save(dumped) => task.(pc := Suspend(dumped))
    case Suspend(dumped) => task.(pc := Refetch)
    case Refetch => task.(pc := Load)
    case Load =>
      if job !in store.progress then task.(pc := Fail(MISSING_PROGRESS))
      else if choice.loadError.Some? then task.(pc := Fail(choice.loadError.value))
      else task.(pc := PollBefore(store.progress[job]))
    case PollBefore(progress) =>
      if job in store.cancels then task.(pc := WakeCancelled(progress))
      else if progress.capability !in capabilities then task.(pc := Fail(MISSING_CAPABILITY))
      else task.(pc := Handle(progress))
    case WakeCancelled(progress) => task.(pc := Resume(progress, true), handlers := task.handlers + 1)
    case Handle(progress) => task.(pc := PollAfter(progress), handlers := task.handlers + 1)
    case PollAfter(progress) => task.(pc := Resume(progress, job in store.cancels))
    case Resume(_, _) =>
      (match choice.attempt
       case Stepped(step) => task.(pc := Drive(step))
       case Threw(error, isCancellation) =>
         task.(pc := if isCancellation then CancelJob(error) else Fail(error),
               handlers := if task.handlers > 0 then task.handlers - 1 else 0))
    case Complete(value) => task.(pc := Delete)
    case Fail(error) => task.(pc := Delete)
    case CancelJob(error) => task.(pc := Delete)
    case Delete => task.(pc := Release, handlers := 0)
    case Release => task.(pc := Settled)
    case Settled => task
  }

  /** What a call of `task` that did not throw and led to `next` adds to the history. */
  function Actions(store: StoreState, capabilities: set<string>, task: Task, choice: Choice, next: Task): multiset<Action> {
    CallActions(task, next) + Replies(store, capabilities, task, choice)
  }

  function CallActions(task: Task, next: Task): multiset<Action> {
    match task.pc
    case Promote(_) => multiset{Promoted(task.job)}
    case Launch(_) => multiset{Started(task.job)}
    case PollBefore(_) => if next.pc.Handle? then multiset{Handled(task.job)} else multiset{}
    case Resume(_, cancelling) => multiset{if cancelling then Aborted(task.job) else Resumed(task.job)}
    case _ => multiset{}
  }

  function Replies(store: StoreState, capabilities: set<string>, task: Task, choice: Choice): multiset<Action> {
    match ReplyTo(store, capabilities, task, choice)
    case None => multiset{}
    case Some(reply) => multiset{reply}
  }

  /** What the task is told, taken from the environment alone. */
  function ReplyTo(store: StoreState, capabilities: set<string>, task: Task, choice: Choice): Option<Action> {
    var job := task.job;
    match task.pc
    case Launch(_) =>
      (match choice.attempt
       case Stepped(Finished(value)) => Some(GuestFinished(job, value))
       case Stepped(Suspended(dumped)) => Some(GuestSuspended(job, dumped))
       case Threw(error, _) => Some(StartThrew(job, error)))
    case Resume(_, _) =>
      (match choice.attempt
       case Stepped(Finished(value)) => Some(GuestFinished(job, value))
       case Stepped(Suspended(dumped)) => Some(GuestSuspended(job, dumped))
       case Threw(error, isCancellation) => Some(GuestThrew(job, error, isCancellation)))
    case Load => if choice.loadError.Some? then Some(LoadThrew(job, choice.loadError.value)) else None
    case PollBefore(progress) =>
      if job !in store.cancels && progress.capability !in capabilities then Some(CapabilityMissing(job)) else None
    case _ => None
  }

  datatype Outcome = Outcome(store: StoreState, task: Task, actions: multiset<Action>, threw: bool)

  function AdvanceTask(store: StoreState, capabilities: set<string>, task: Task, choice: Choice): Outcome {
    match Perform(store, task.job, task.worker, CallAt(task.pc))
    case Success(after) =>
      var next := Continue(store, capabilities, task, choice);
      Outcome(after, next, Actions(store, capabilities, task, choice, next), false)
    case Failure(_) => Outcome(store, Raise(task), multiset{}, true)
  }

  // ------------------------------------------------------------------ the whole system

  /** The tasks in the `inFlight` set of `worker`. */
  function InFlight(s: System, worker: WorkerId): set<TaskId> {
    set t | t in s.tasks && s.tasks[t].worker == worker
  }

  ghost function EnqueueStep(s: System, job: JobId, input: StructuredValue): System {
    s.(store := s.store.Enqueue(job, NewRecord(input)),
       log := if job in s.store.jobs then s.log else s.log + multiset{Inserted(job)})
  }

  ghost function CancelStep(s: System, job: JobId): System {
    s.(store := s.store.RequestCancel(job),
       log := if s.store.CancelReplyFor(job).CancelledNow? then s.log + multiset{CancelWon(job)} else s.log)
  }

  /** The room `worker` has for more tasks, when it is at the top of its loop. */
  function Available(s: System, worker: WorkerId): nat {
    if worker in s.workers && s.workers[worker].pc.Looping? && |InFlight(s, worker)| < s.workers[worker].max
    then s.workers[worker].max - |InFlight(s, worker)|
    else 0
  }

  /** With no room the loop does not call the store but waits for a task to settle. */
  ghost function ClaimStep(s: System, worker: WorkerId): System {
    if worker !in s.workers || !s.workers[worker].pc.Looping? then s
    else if Available(s, worker) == 0 then
      s.(workers := s.workers[worker := s.workers[worker].(pc := Racing(InFlight(s, worker)))])
    else
      var picked := s.store.Picked(s.store.order, Available(s, worker), []);
      s.(store := s.store.ClaimAll(picked, worker),
         workers := s.workers[worker := s.workers[worker].(pc := Claimed(picked, picked != []))])
  }

  ghost function SpawnStep(s: System, worker: WorkerId): System {
    if worker !in s.workers || s.workers[worker].Pending() == [] then s
    else
      var pending := s.workers[worker].pc.pending;
      s.(tasks := s.tasks[s.nextTask := Task(pending[0], worker, Fetch, 0, false)],
         nextTask := s.nextTask + 1,
         workers := s.workers[worker := s.workers[worker].(pc := Claimed(pending[1..], s.workers[worker].pc.gotJobs))])
  }

  /** The steps of a worker that change only its own program counter. */
  ghost function WorkerStep(s: System, event: Event): System
    requires event.Open? || event.Decide? || event.Stop?
  {
    var worker := event.worker;
    if event.Open? then
      if worker in s.workers || event.max == 0 then s
      else s.(workers := s.workers[worker := Worker(event.max, event.drain, Looping)])
    else if worker !in s.workers then s
    else
      var w := s.workers[worker];
      if event.Stop? then
        if w.pc.Looping? then s.(workers := s.workers[worker := w.(pc := Stopped)]) else s
      else if w.pc.Claimed? && w.pc.pending == [] then
        s.(workers := s.workers[worker := w.(pc := AfterClaim(w, InFlight(s, worker)))])
      else s
  }

  /** Where a worker goes once its claim is worked off: it returns, sleeps for a while, goes on at once, or
      waits for a task. */
  function AfterClaim(w: Worker, inFlight: set<TaskId>): WorkerPc
    requires w.pc.Claimed?
  {
    if inFlight == {} then if w.drain && !w.pc.gotJobs then Returned else Looping
    else if !w.pc.gotJobs || |inFlight| >= w.max then Racing(inFlight)
    else Looping
  }

  ghost function TaskStep(s: System, t: TaskId, choice: Choice): System {
    if t !in s.tasks then s
    else
      var o := AdvanceTask(s.store, s.capabilities, s.tasks[t], choice);
      s.(store := o.store, tasks := s.tasks[t := o.task], log := s.log + o.actions)
  }

  /** A task leaves its worker's `inFlight` set and settles; a worker that waits for it goes on, or fails
      with it. */
  ghost function DropStep(s: System, t: TaskId): System {
    if t !in s.tasks || !s.tasks[t].pc.Settled? then s
    else
      var task := s.tasks[t];
      var rest := s.(tasks := s.tasks - {t});
      if task.worker in s.workers && WaitsFor(s.workers[task.worker], t) then
        rest.(workers := s.workers[task.worker := Woken(s.workers[task.worker], task)])
      else rest
  }

  predicate WaitsFor(w: Worker, t: TaskId) {
    w.pc.Racing? && t in w.pc.waitingFor
  }

  function Woken(w: Worker, task: Task): Worker {
    w.(pc := if task.rejected then FailedBy(task.job) else Looping)
  }

  ghost function Apply(s: System, event: Event): System {
    match event
    case EnqueueJob(job, input) => EnqueueStep(s, job, input)
    case RequestCancel(job) => CancelStep(s, job)
    case Claim(worker) => ClaimStep(s, worker)
    case Spawn(worker) => SpawnStep(s, worker)
    case Advance(t, choice) => TaskStep(s, t, choice)
    case Drop(t) => DropStep(s, t)
    case _ => WorkerStep(s, event)
  }

  ghost function Run(s: System, events: seq<Event>): System
    decreases |events|
  {
    if events == [] then s else Run(Apply(s, events[0]), events[1..])
  }

  /** A store as it is when the process starts: nothing is claimed, no task runs, and a
      suspended job has its progress.  Everything else is free: finished jobs, stale cancel requests,
      jobs left `running` by a process that died. */
  ghost predicate WellFormedStart(s: System) {
    && s.store.Valid()
    && s.store.claims == map[]
    && s.tasks == map[] && s.workers == map[] && s.log == multiset{}
    && forall job :: job in s.store.jobs ==>
         s.store.jobs[job].state.Waiting? ==> HasProgress(s.store, job)
  }

  ghost predicate Reachable(s: System) {
    exists start: System, events: seq<Event> :: WellFormedStart(start) && s == Run(start, events)
  }

  /** The stored progress of `job` is the call its record says it waits for. */
  ghost predicate HasProgress(store: StoreState, job: JobId)
    requires job in store.jobs
  {
    && job in store.progress
    && store.jobs[job].capability == Some(store.progress[job].capability)
    && store.jobs[job].args == Some(store.progress[job].args)
  }
}

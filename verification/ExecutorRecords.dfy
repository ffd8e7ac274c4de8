/** What the record of a job shows, over every run. */
module ExecutorRecords {
  import opened Wrappers
  import opened StructuredValues
  import opened ExecutorStore
  import opened Executor
  import opened ExecutorInvariant
  import opened ExecutorTheorems

  // ------------------------------------------------------------------ the shape of a record

  /** A waiting job, and no other, shows the call it waits for. */
  predicate CallShown(record: Record) {
    (record.state.Waiting? <==> record.capability.Some?) && (record.state.Waiting? <==> record.args.Some?)
  }

  /** A completed job, and no other, shows a result; a failed or cancelled one, and no other, an error. */
  predicate OutcomeShown(record: Record) {
    && (record.state.Completed? <==> record.result.Some?)
    && (record.state.Failed? || record.state.Cancelled? <==> record.error.Some?)
  }

  /** The record is the one the run began with, or shows exactly what its state calls for; only a job
      the run began with may, until it ends, still carry the result and error it had then. */
  predicate ShapedSince(before: Option<Record>, record: Record) {
    || before == Some(record)
    || (CallShown(record)
        && (OutcomeShown(record)
            || (before.Some? && !record.state.Terminal()
                && record.result == before.value.result && record.error == before.value.error)))
  }

  ghost predicate AllShaped(start: StoreState, store: StoreState) {
    forall job :: job in store.jobs ==> ShapedSince(Find(start.jobs, job), store.jobs[job])
  }

  lemma PatchKeepsShape(before: Option<Record>, record: Record, pc: Pc)
    requires ShapedSince(before, record) && CallAt(pc).CallUpdate? && AllowedTransition(record.state, CallAt(pc).patch.state)
    ensures ShapedSince(before, ApplyPatch(record, CallAt(pc).patch))
  {
  }

  lemma PerformKeepsShape(start: StoreState, store: StoreState, task: Task)
    requires AllShaped(start, store) && Perform(store, task.job, task.worker, CallAt(task.pc)).Success?
    ensures AllShaped(start, Perform(store, task.job, task.worker, CallAt(task.pc)).value)
  {
    hide ShapedSince, CallAt;
    if CallAt(task.pc).CallUpdate? {
      PatchKeepsShape(Find(start.jobs, task.job), store.jobs[task.job], task.pc);
    }
  }

  lemma ApplyKeepsShape(start: StoreState, s: System, event: Event)
    requires AllShaped(start, s.store)
    ensures AllShaped(start, Apply(s, event).store)
  {
    hide Perform, CallAt, Continue, AllShaped;
    match event
    case EnqueueJob(job, input) => EnqueueKeepsShape(start, s.store, job, input);
    case RequestCancel(job) => CancelKeepsShape(start, s.store, job);
    case Claim(worker) => ClaimKeepsShape(start, s, worker);
    case Advance(t, choice) =>
      if t in s.tasks && Perform(s.store, s.tasks[t].job, s.tasks[t].worker, CallAt(s.tasks[t].pc)).Success? {
        PerformKeepsShape(start, s.store, s.tasks[t]);
      }
    case _ =>
  }

  lemma EnqueueKeepsShape(start: StoreState, store: StoreState, job: JobId, input: StructuredValue)
    requires AllShaped(start, store)
    ensures AllShaped(start, store.Enqueue(job, NewRecord(input)))
  {
  }

  lemma CancelKeepsShape(start: StoreState, store: StoreState, job: JobId)
    requires AllShaped(start, store)
    ensures AllShaped(start, store.RequestCancel(job))
  {
  }

  lemma ClaimKeepsShape(start: StoreState, s: System, worker: WorkerId)
    requires AllShaped(start, s.store)
    ensures AllShaped(start, ClaimStep(s, worker).store)
  {
  }

  lemma {:induction false} RunKeepsShape(start: StoreState, s: System, events: seq<Event>)
    requires AllShaped(start, s.store)
    ensures AllShaped(start, Run(s, events).store)
    decreases |events|
  {
    hide Apply, AllShaped;
    if events != [] {
      ApplyKeepsShape(start, s, events[0]);
      RunKeepsShape(start, Apply(s, events[0]), events[1..]);
    }
  }

  /** In every run a record shows what its state calls for, up to what the job carried when the run began;
      in particular every job enqueued in the run, and every job that ends in it, shows exactly that. */
  lemma RecordsStayShaped(start: System, events: seq<Event>, job: JobId)
    requires job in Run(start, events).store.jobs
    ensures var before, record := Find(start.store.jobs, job), Run(start, events).store.jobs[job];
      && ShapedSince(before, record)
      && (before.None? || (record.state.Terminal() && before != Some(record)) ==> CallShown(record) && OutcomeShown(record))
      && (before.Some? && CallShown(before.value) && OutcomeShown(before.value) && !before.value.state.Terminal()
          ==> CallShown(record) && OutcomeShown(record))
  {
    hide Run;
    RunKeepsShape(start.store, start, events);
  }

  // ------------------------------------------------------------------ what a task writes

  /** The record after the update a task makes at a program counter: nothing but what is named changes. */
  lemma WhatATaskWrites(record: Record, pc: Pc)
    requires CallAt(pc).CallUpdate?
    ensures ApplyPatch(record, CallAt(pc).patch) ==
      match pc
      case Promote(read) =>
        Record(Running, record.input, read.attempts + 1, None, None, None, None)
      case Suspend(dumped) =>
        record.(state := Waiting, capability := Some(dumped.capability), args := Some(dumped.args))
      case Complete(value) =>
        record.(state := Completed, capability := None, args := None, result := Some(value), error := None)
      case Fail(error) =>
        record.(state := Failed, capability := None, args := None, result := None, error := Some(error))
      case CancelJob(error) =>
        record.(state := Cancelled, capability := None, args := None, result := None, error := Some(error))
      case _ => record.(state := Running, capability := None, args := None)
  {
  }

  // ------------------------------------------------------------------ inputs

  /** A job enters the store queued, with its input and nothing else. */
  lemma EnqueueRecordsTheInput(s: System, job: JobId, input: StructuredValue)
    requires job !in s.store.jobs
    ensures Find(Apply(s, EnqueueJob(job, input)).store.jobs, job) == Some(Record(Queued, input, 0, None, None, None, None))
  {
  }

  lemma StepKeepsInput(s: System, event: Event, job: JobId)
    requires job in s.store.jobs
    ensures var n := Apply(s, event); job in n.store.jobs && n.store.jobs[job].input == s.store.jobs[job].input
  {
    hide Continue, Actions, CallAt;
  }

  /** Over every run a job keeps its input, and a guest is started with the input its job was enqueued with. */
  lemma {:induction false} InputsAreKept(s: System, events: seq<Event>, job: JobId)
    requires job in s.store.jobs
    ensures var n := Run(s, events); job in n.store.jobs && n.store.jobs[job].input == s.store.jobs[job].input
    decreases |events|
  {
    hide Apply;
    if events != [] {
      StepKeepsInput(s, events[0], job);
      InputsAreKept(Apply(s, events[0]), events[1..], job);
    }
  }

  lemma GuestsStartWithTheirInput(s: System, events: seq<Event>, t: TaskId)
    requires Reachable(s) && t in Run(s, events).tasks && Run(s, events).tasks[t].pc.Launch?
    requires Run(s, events).tasks[t].job in s.store.jobs
    ensures Run(s, events).tasks[t].pc.record.input == s.store.jobs[Run(s, events).tasks[t].job].input
  {
    hide Reachable, Run, Inv;
    ReachableHasInv(s);
    RunKeepsInv(s, events);
    var n := Run(s, events);
    InputsAreKept(s, events, n.tasks[t].job);
    LaunchReadsTheInput(n, t);
  }

  lemma LaunchReadsTheInput(s: System, t: TaskId)
    requires Inv(s) && t in s.tasks && s.tasks[t].pc.Launch?
    ensures s.tasks[t].job in s.store.jobs && s.tasks[t].pc.record.input == s.store.jobs[s.tasks[t].job].input
  {
    hide JobOk, TaskOk;
    assert TaskHolds(s, t);
    LaunchInView(ViewIn(s, s.tasks[t].job), s.tasks[t]);
  }

  lemma LaunchInView(v: JobView, task: Task)
    requires TaskOk(v, task) && task.pc.Launch?
    ensures v.record.Some? && v.record.value.input == task.pc.record.input
  {
  }
}

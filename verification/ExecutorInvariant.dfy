/**
 The inductive invariant of the executor, job by job.

 Everything a task may read or change belongs to its own job, so the invariant is stated on the
 `View` of one job and a step of one task leaves every other view alone.
 */
module ExecutorInvariant {
  import opened Wrappers
  import opened StructuredValues
  import opened ExecutorStore
  import opened Executor

  /** All the store and the history say about one job. */
  datatype JobView = JobView(
    record: Option<Record>,
    progress: Option<Persisted>,
    claim: Option<WorkerId>,
    inserted: nat,
    promoted: nat,
    started: nat,
    cancelWon: nat)

  function Find<K, V>(m: map<K, V>, key: K): Option<V> {
    if key in m then Some(m[key]) else None
  }

  ghost function View(store: StoreState, log: multiset<Action>, job: JobId): JobView {
    JobView(Find(store.jobs, job), Find(store.progress, job), Find(store.claims, job),
            log[Inserted(job)], log[Promoted(job)], log[Started(job)], log[CancelWon(job)])
  }

  predicate In(v: JobView, state: JobState) {
    v.record.Some? && v.record.value.state == state
  }

  predicate Ended(v: JobView) {
    v.record.Some? && v.record.value.state.Terminal()
  }

  predicate Matches(v: JobView) {
    && v.record.Some? && v.progress.Some?
    && v.record.value.capability == Some(v.progress.value.capability)
    && v.record.value.args == Some(v.progress.value.args)
  }

  predicate JobOk(v: JobView) {
    && v.started <= v.promoted <= 1 && v.inserted <= 1
    && (v.record.None? ==> v.inserted == v.promoted == v.cancelWon == 0 && v.claim.None?)
    && (In(v, Queued) ==> v.promoted == 0)
    && (v.cancelWon > 0 ==> In(v, Cancelled) && v.promoted == 0)
    && (v.record.Some? && v.inserted > 0 ==> v.record.value.attempts == v.promoted)
    && (In(v, Waiting) ==> Matches(v))
  }

  /** What holds of a job while a claim on it has not led to a task's first store call. */
  predicate Untouched(v: JobView) {
    In(v, Queued) || In(v, Waiting) || (In(v, Cancelled) && v.progress.None?)
  }

  predicate TaskOk(v: JobView, task: Task) {
    && (!task.pc.Settled? ==> v.claim == Some(task.worker))
    && (task.rejected ==> (task.pc.Release? || task.pc.Settled?) && v.cancelWon > 0)
    && match task.pc
       case Fetch => Untouched(v) && task.handlers == 0
       case Promote(record) =>
         (In(v, Queued) || (In(v, Cancelled) && v.cancelWon > 0 && v.progress.None?)) && task.handlers == 0
         && v.record.value.attempts == record.attempts && v.record.value.input == record.input
       case Launch(record) => In(v, Running) && v.promoted == 1 && v.started == 0 && v.record.value.input == record.input
       case Save(_) => In(v, Running)
       case Suspend(dumped) => In(v, Running) && v.progress == Some(dumped)
       case Refetch => In(v, Waiting)
       case Load => In(v, Waiting)
       case PollBefore(progress) => In(v, Waiting) && v.progress == Some(progress)
       case WakeCancelled(progress) => In(v, Waiting) && v.progress == Some(progress)
       case Handle(progress) => In(v, Waiting) && v.progress == Some(progress)
       case PollAfter(progress) => In(v, Running) && task.handlers > 0 && v.progress == Some(progress)
       case Resume(progress, _) => In(v, Running) && task.handlers > 0 && v.progress == Some(progress)
       case Complete(_) => In(v, Running)
       case Fail(_) => In(v, Running) || In(v, Waiting)
       case CancelJob(_) => In(v, Running)
       case Delete => Ended(v)
       case Release => Ended(v) && v.progress.None?
       case Settled => Ended(v) && v.progress.None? && v.claim.None?
  }

  ghost function ViewIn(s: System, job: JobId): JobView {
    View(s.store, s.log, job)
  }

  ghost predicate TaskHolds(s: System, t: TaskId)
    requires t in s.tasks
  {
    t < s.nextTask && s.tasks[t].worker in s.workers && TaskOk(ViewIn(s, s.tasks[t].job), s.tasks[t])
  }

  ghost predicate Distinct(s: System) {
    forall t, u :: t in s.tasks && u in s.tasks && t != u ==> s.tasks[t].job != s.tasks[u].job
  }

  ghost predicate NoTaskOn(s: System, job: JobId) {
    forall t :: t in s.tasks ==> s.tasks[t].job != job
  }

  ghost predicate PendingOk(s: System, worker: WorkerId)
    requires worker in s.workers
  {
    var pending := s.workers[worker].Pending();
    && (forall i, k :: 0 <= i < k < |pending| ==> pending[i] != pending[k])
    && (forall job :: job in pending ==>
          Untouched(ViewIn(s, job)) && ViewIn(s, job).claim == Some(worker) && NoTaskOn(s, job))
  }

  ghost predicate Working(s: System, t: TaskId, job: JobId) {
    t in s.tasks && s.tasks[t].job == job && !s.tasks[t].pc.Settled?
  }

  /** The claim on `job` belongs to a task in flight, or is about to. */
  ghost predicate Backed(s: System, job: JobId)
    requires job in s.store.claims
  {
    || (exists t :: Working(s, t, job))
    || (s.store.claims[job] in s.workers && job in s.workers[s.store.claims[job]].Pending())
  }

  ghost predicate Inv(s: System) {
    && s.store.Valid()
    && (forall job: JobId :: JobOk(ViewIn(s, job)))
    && (forall t :: t in s.tasks ==> TaskHolds(s, t))
    && Distinct(s)
    && (forall worker :: worker in s.workers ==> PendingOk(s, worker))
    && (forall job :: job in s.store.claims ==> Backed(s, job))
  }

  // ------------------------------------------------------------------ one task

  ghost predicate OnlyTouches(before: StoreState, after: StoreState, job: JobId) {
    && after.order == before.order && after.jobs.Keys == before.jobs.Keys
    && (after.jobs == before.jobs || (job in after.jobs && after.jobs == before.jobs[job := after.jobs[job]]))
    && (after.progress == before.progress || after.progress == before.progress - {job}
        || (job in after.progress && after.progress == before.progress[job := after.progress[job]]))
    && (after.claims == before.claims || after.claims == before.claims - {job})
  }

  lemma PerformTouchesItsJob(store: StoreState, job: JobId, worker: WorkerId, call: StoreCall)
    requires Perform(store, job, worker, call).Success?
    ensures OnlyTouches(store, Perform(store, job, worker, call).value, job)
  {
  }

  lemma ActionsAreOwn(store: StoreState, capabilities: set<string>, task: Task, choice: Choice, next: Task)
    ensures forall action :: action in Actions(store, capabilities, task, choice, next) ==>
      action.job == task.job && !action.Inserted? && !action.CancelWon?
  {
    hide ReplyTo;
    ReplyIsOwn(store, capabilities, task, choice);
  }

  lemma ReplyIsOwn(store: StoreState, capabilities: set<string>, task: Task, choice: Choice)
    ensures var reply := ReplyTo(store, capabilities, task, choice);
      reply.Some? ==> reply.value.job == task.job && reply.value.IsReply()
  {
  }

  lemma ContinueKeepsOwner(store: StoreState, capabilities: set<string>, task: Task, choice: Choice)
    ensures var next := Continue(store, capabilities, task, choice);
      next.job == task.job && next.worker == task.worker
      && (next.pc.Settled? ==> task.pc.Settled? || task.pc.Release?)
  {
  }

  lemma AdvanceTouchesItsJob(store: StoreState, capabilities: set<string>, task: Task, choice: Choice)
    ensures var o := AdvanceTask(store, capabilities, task, choice);
      && OnlyTouches(store, o.store, task.job)
      && (forall action :: action in o.actions ==> action.job == task.job && !action.Inserted? && !action.CancelWon?)
      && o.task.job == task.job && o.task.worker == task.worker
      && (!task.pc.Release? ==> o.store.claims == store.claims && (o.task.pc.Settled? ==> task.pc.Settled?))
  {
    hide Continue, Actions;
    ContinueKeepsOwner(store, capabilities, task, choice);
    ActionsAreOwn(store, capabilities, task, choice, Continue(store, capabilities, task, choice));
    if Perform(store, task.job, task.worker, CallAt(task.pc)).Success? {
      PerformTouchesItsJob(store, task.job, task.worker, CallAt(task.pc));
    }
  }

  /** A step of a task leaves every other job as it is. */
  lemma AdvanceIsLocal(s: System, task: Task, choice: Choice, other: JobId)
    requires other != task.job
    ensures var o := AdvanceTask(s.store, s.capabilities, task, choice);
      View(o.store, s.log + o.actions, other) == View(s.store, s.log, other)
  {
    AdvanceTouchesItsJob(s.store, s.capabilities, task, choice);
  }

  // The same step, seen on the view of the task's own job alone.

  predicate CallOk(v: JobView, call: StoreCall) {
    match call
    case CallUpdate(patch) => v.record.Some? && AllowedTransition(v.record.value.state, patch.state)
    case CallSave(_) => v.record.Some? && !v.record.value.state.Terminal()
    case _ => true
  }

  function AfterCall(v: JobView, worker: WorkerId, call: StoreCall): JobView
    requires CallOk(v, call)
  {
    match call
    case CallUpdate(patch) => v.(record := Some(ApplyPatch(v.record.value, patch)))
    case CallSave(dumped) => v.(progress := Some(dumped))
    case CallDelete => v.(progress := None)
    case CallRelease => if v.claim == Some(worker) then v.(claim := None) else v
    case _ => v
  }

  function AfterActions(v: JobView, pc: Pc): JobView {
    if pc.Promote? then v.(promoted := v.promoted + 1)
    else if pc.Launch? then v.(started := v.started + 1)
    else v
  }

  lemma PerformOnView(store: StoreState, log: multiset<Action>, job: JobId, worker: WorkerId, call: StoreCall)
    ensures var result := Perform(store, job, worker, call);
      && (result.Success? <==> CallOk(View(store, log, job), call))
      && (result.Success? ==> View(result.value, log, job) == AfterCall(View(store, log, job), worker, call))
  {
  }

  lemma RepliesAreNoCalls(store: StoreState, capabilities: set<string>, task: Task, choice: Choice)
    ensures forall action: Action :: !action.IsReply() ==> Replies(store, capabilities, task, choice)[action] == 0
  {
    hide ReplyTo;
    ReplyIsOwn(store, capabilities, task, choice);
  }

  lemma ActionsOnView(after: StoreState, log: multiset<Action>, store: StoreState, capabilities: set<string>, task: Task,
                      choice: Choice, next: Task)
    ensures View(after, log + Actions(store, capabilities, task, choice, next), task.job)
         == AfterActions(View(after, log, task.job), task.pc)
  {
    hide Replies;
    RepliesAreNoCalls(store, capabilities, task, choice);
  }

  ghost predicate KeepsView(v: JobView, store: StoreState, capabilities: set<string>, task: Task, choice: Choice) {
    && (CallOk(v, CallAt(task.pc)) ==>
         var after := AfterActions(AfterCall(v, task.worker, CallAt(task.pc)), task.pc);
         JobOk(after) && TaskOk(after, Continue(store, capabilities, task, choice)))
    && (!CallOk(v, CallAt(task.pc)) ==> task.pc.Promote? && In(v, Cancelled) && task.handlers == 0)
  }

  predicate Agrees(v: JobView, store: StoreState, job: JobId) {
    v.record == Find(store.jobs, job) && v.progress == Find(store.progress, job)
  }

  lemma UpdateKeepsView(v: JobView, store: StoreState, capabilities: set<string>, task: Task, choice: Choice)
    requires Agrees(v, store, task.job) && JobOk(v) && TaskOk(v, task) && CallAt(task.pc).CallUpdate?
    ensures KeepsView(v, store, capabilities, task, choice)
  {
  }

  lemma WriteKeepsView(v: JobView, store: StoreState, capabilities: set<string>, task: Task, choice: Choice)
    requires Agrees(v, store, task.job) && JobOk(v) && TaskOk(v, task)
    requires CallAt(task.pc).CallSave? || CallAt(task.pc).CallConsumeCancel?
    ensures KeepsView(v, store, capabilities, task, choice)
  {
  }

  lemma EndingKeepsView(v: JobView, store: StoreState, capabilities: set<string>, task: Task, choice: Choice)
    requires Agrees(v, store, task.job) && JobOk(v) && TaskOk(v, task)
    requires CallAt(task.pc).CallDelete? || CallAt(task.pc).CallRelease?
    ensures KeepsView(v, store, capabilities, task, choice)
  {
  }

  lemma ReadKeepsView(v: JobView, store: StoreState, capabilities: set<string>, task: Task, choice: Choice)
    requires Agrees(v, store, task.job) && JobOk(v) && TaskOk(v, task) && CallAt(task.pc).ReadOnly?
    ensures KeepsView(v, store, capabilities, task, choice)
  {
  }

  /** The heart of the invariant: a step of a task keeps what holds of its own job.  The one call
      that can throw is the promotion of a job cancelled between `get` and `update`. */
  lemma AdvanceKeepsView(s: System, task: Task, choice: Choice)
    requires JobOk(View(s.store, s.log, task.job)) && TaskOk(View(s.store, s.log, task.job), task)
    ensures var o := AdvanceTask(s.store, s.capabilities, task, choice);
      var after := View(o.store, s.log + o.actions, task.job);
      && JobOk(after) && TaskOk(after, o.task)
      && (o.threw <==> task.pc.Promote? && In(View(s.store, s.log, task.job), Cancelled))
      && (!o.threw ==> o.task.rejected == task.rejected)
      && (o.threw ==> o.store == s.store && o.task == task.(pc := Release, rejected := true))
  {
    var v := View(s.store, s.log, task.job);
    PerformOnView(s.store, s.log, task.job, task.worker, CallAt(task.pc));
    assert KeepsView(v, s.store, s.capabilities, task, choice) by {
      match CallAt(task.pc)
      case CallUpdate(_) => UpdateKeepsView(v, s.store, s.capabilities, task, choice);
      case ReadOnly => ReadKeepsView(v, s.store, s.capabilities, task, choice);
      case CallDelete | CallRelease => EndingKeepsView(v, s.store, s.capabilities, task, choice);
      case _ => WriteKeepsView(v, s.store, s.capabilities, task, choice);
    }
    var result := Perform(s.store, task.job, task.worker, CallAt(task.pc));
    if result.Success? {
      ActionsOnView(result.value, s.log, s.store, s.capabilities, task, choice, Continue(s.store, s.capabilities, task, choice));
    } else {
      assert s.log + multiset{} == s.log;
    }
  }

  // ------------------------------------------------------------------ the whole system

  /** What the rest of the proof needs to know of `TaskOk` and `JobOk`. */
  lemma TaskFacts(v: JobView, task: Task)
    requires TaskOk(v, task)
    ensures v.record.Some?
    ensures !task.pc.Settled? ==> v.claim == Some(task.worker)
    ensures task.pc.Settled? ==> Ended(v) && v.claim.None? && v.progress.None?
  {
  }

  lemma PendingFrame(s: System, n: System, worker: WorkerId)
    requires worker in s.workers && worker in n.workers && PendingOk(s, worker)
    requires n.workers[worker].Pending() == s.workers[worker].Pending()
    requires forall job :: job in s.workers[worker].Pending() ==>
      Untouched(ViewIn(n, job)) && ViewIn(n, job).claim == ViewIn(s, job).claim && (NoTaskOn(s, job) ==> NoTaskOn(n, job))
    ensures PendingOk(n, worker)
  {
    hide ViewIn, NoTaskOn;
  }

  lemma BackedFrame(s: System, n: System, job: JobId)
    requires job in s.store.claims && job in n.store.claims && n.store.claims[job] == s.store.claims[job]
    requires Backed(s, job)
    requires forall t :: Working(s, t, job) ==> Working(n, t, job)
    requires s.store.claims[job] in s.workers && job in s.workers[s.store.claims[job]].Pending() ==>
      s.store.claims[job] in n.workers && job in n.workers[s.store.claims[job]].Pending()
    ensures Backed(n, job)
  {
    hide Working;
  }

  /** A step that leaves workers alone and changes at most the view of `job` keeps the invariant,
      provided that view, the task on it and its claim are in order. */
  lemma LocalStepKeepsInv(s: System, n: System, job: JobId)
    requires Inv(s) && n.store.Valid() && n.workers == s.workers && n.nextTask == s.nextTask
    requires forall other: JobId :: other != job ==> ViewIn(n, other) == ViewIn(s, other)
    requires JobOk(ViewIn(n, job))
    requires n.tasks.Keys <= s.tasks.Keys
    requires forall t :: t in n.tasks ==> n.tasks[t].job == s.tasks[t].job && n.tasks[t].worker == s.tasks[t].worker
    requires forall t :: t in n.tasks && s.tasks[t].job == job ==> TaskOk(ViewIn(n, job), n.tasks[t])
    requires forall t :: t in n.tasks && s.tasks[t].job != job ==> n.tasks[t] == s.tasks[t]
    requires Untouched(ViewIn(s, job)) && NoTaskOn(s, job) ==>
      Untouched(ViewIn(n, job)) && ViewIn(n, job).claim == ViewIn(s, job).claim
    requires ViewIn(n, job).claim.Some? ==>
      ViewIn(n, job).claim == ViewIn(s, job).claim && forall t :: Working(s, t, job) ==> Working(n, t, job)
    requires forall t, other :: other != job && Working(s, t, other) ==> Working(n, t, other)
    ensures Inv(n)
  {
    hide JobOk, TaskOk, Untouched, ViewIn, PendingOk, Backed, TaskHolds, NoTaskOn, Working, Distinct;
    forall t | t in n.tasks ensures TaskHolds(n, t) {
      LocalTask(s, n, job, t);
    }
    forall worker | worker in n.workers ensures PendingOk(n, worker) {
      LocalPending(s, n, job, worker);
    }
    forall other | other in n.store.claims ensures Backed(n, other) {
      ClaimsInView(s, other);
      ClaimsInView(n, other);
      LocalBacked(s, n, job, other);
    }
    assert Distinct(n) by { FewerAreDistinct(s, n); }
  }

  lemma FewerAreDistinct(s: System, n: System)
    requires Distinct(s) && n.tasks.Keys <= s.tasks.Keys && forall t :: t in n.tasks ==> n.tasks[t].job == s.tasks[t].job
    ensures Distinct(n)
  {
  }

  lemma LocalTask(s: System, n: System, job: JobId, t: TaskId)
    requires t in n.tasks && t in s.tasks && TaskHolds(s, t) && n.workers == s.workers && n.nextTask == s.nextTask
    requires n.tasks[t].job == s.tasks[t].job && n.tasks[t].worker == s.tasks[t].worker
    requires forall other: JobId :: other != job ==> ViewIn(n, other) == ViewIn(s, other)
    requires if s.tasks[t].job == job then TaskOk(ViewIn(n, job), n.tasks[t]) else n.tasks[t] == s.tasks[t]
    ensures TaskHolds(n, t)
  {
    hide TaskOk, ViewIn;
  }

  lemma LocalBacked(s: System, n: System, job: JobId, claimed: JobId)
    requires claimed in n.store.claims && claimed in s.store.claims && n.store.claims[claimed] == s.store.claims[claimed]
    requires Backed(s, claimed) && n.workers == s.workers
    requires forall t :: Working(s, t, claimed) ==> Working(n, t, claimed)
    ensures Backed(n, claimed)
  {
    hide Working;
    BackedFrame(s, n, claimed);
  }

  lemma LocalPending(s: System, n: System, job: JobId, worker: WorkerId)
    requires worker in s.workers && PendingOk(s, worker) && n.workers == s.workers
    requires forall other: JobId :: other != job ==> ViewIn(n, other) == ViewIn(s, other)
    requires n.tasks.Keys <= s.tasks.Keys && forall t :: t in n.tasks ==> n.tasks[t].job == s.tasks[t].job
    requires Untouched(ViewIn(s, job)) && NoTaskOn(s, job) ==>
      Untouched(ViewIn(n, job)) && ViewIn(n, job).claim == ViewIn(s, job).claim
    ensures PendingOk(n, worker)
  {
    hide Untouched, ViewIn;
    PendingFrame(s, n, worker);
  }

  lemma ClaimsInView(s: System, job: JobId)
    ensures ViewIn(s, job).claim == Find(s.store.claims, job)
  {
  }

  lemma StartHasInv(s: System)
    requires WellFormedStart(s)
    ensures Inv(s)
  {
    forall job: JobId ensures JobOk(ViewIn(s, job)) {
    }
  }

  lemma EnqueueKeepsInv(s: System, job: JobId, input: StructuredValue)
    requires Inv(s)
    ensures Inv(EnqueueStep(s, job, input))
  {
    hide TaskOk, Distinct, PendingOk, Backed;
    var n := EnqueueStep(s, job, input);
    if job !in s.store.jobs {
      UnknownJobIsFree(s, job);
      EnqueuedView(s, job, input);
      hide JobOk, ViewIn, TaskHolds, Untouched, Inv;
      LocalStepKeepsInv(s, n, job);
    }
  }

  lemma UnknownJobIsFree(s: System, job: JobId)
    requires Inv(s) && job !in s.store.jobs
    ensures NoTaskOn(s, job) && ViewIn(s, job).claim.None? && !Untouched(ViewIn(s, job)) && JobOk(ViewIn(s, job))
  {
    hide TaskOk, Distinct, PendingOk, Backed;
    assert JobOk(ViewIn(s, job)) && ViewIn(s, job).record.None?;
    forall t | t in s.tasks ensures s.tasks[t].job != job {
      assert TaskHolds(s, t);
      TaskFacts(ViewIn(s, s.tasks[t].job), s.tasks[t]);
    }
  }

  lemma EnqueuedView(s: System, job: JobId, input: StructuredValue)
    requires job !in s.store.jobs && JobOk(ViewIn(s, job)) && s.store.Valid()
    ensures var n := EnqueueStep(s, job, input);
      && n.store.Valid() && JobOk(ViewIn(n, job)) && ViewIn(n, job).claim == ViewIn(s, job).claim
      && forall other: JobId :: other != job ==> ViewIn(n, other) == ViewIn(s, other)
  {
  }

  lemma CancelKeepsView(v: JobView, record: Record)
    requires JobOk(v) && In(v, Queued) && record.state == Cancelled && record.attempts == v.record.value.attempts
    requires record.input == v.record.value.input
    ensures var w := v.(record := Some(record), progress := None, cancelWon := v.cancelWon + 1);
      JobOk(w) && Untouched(w) && forall task: Task :: TaskOk(v, task) ==> TaskOk(w, task)
  {
  }

  lemma CancelKeepsInv(s: System, job: JobId)
    requires Inv(s)
    ensures Inv(CancelStep(s, job))
  {
    hide JobOk, TaskOk;
    var n := CancelStep(s, job);
    var v := ViewIn(s, job);
    assert JobOk(v);
    if s.store.CancelReplyFor(job).CancelledNow? {
      CancelKeepsView(v, n.store.jobs[job]);
      assert ViewIn(n, job) == v.(record := Some(n.store.jobs[job]), progress := None, cancelWon := v.cancelWon + 1);
    } else {
      assert ViewIn(n, job) == v;
    }
    forall t | t in s.tasks && s.tasks[t].job == job ensures TaskOk(ViewIn(n, job), n.tasks[t]) {
      assert TaskHolds(s, t);
    }
    forall other: JobId | other != job ensures ViewIn(n, other) == ViewIn(s, other) {
    }
    CancelIsLocal(s, n, job);
  }

  lemma CancelIsLocal(s: System, n: System, job: JobId)
    requires Inv(s) && n.store.Valid() && n == s.(store := n.store, log := n.log)
    requires forall other: JobId :: other != job ==> ViewIn(n, other) == ViewIn(s, other)
    requires JobOk(ViewIn(n, job)) && ViewIn(n, job).claim == ViewIn(s, job).claim
    requires Untouched(ViewIn(s, job)) ==> Untouched(ViewIn(n, job))
    requires forall t :: t in s.tasks && s.tasks[t].job == job ==> TaskOk(ViewIn(n, job), n.tasks[t])
    ensures Inv(n)
  {
    hide JobOk, TaskOk, Untouched, ViewIn, Inv;
    LocalStepKeepsInv(s, n, job);
  }

  lemma DroppedKeepsInv(s: System, t: TaskId)
    requires Inv(s) && t in s.tasks && s.tasks[t].pc.Settled?
    ensures Inv(s.(tasks := s.tasks - {t}))
  {
    hide JobOk, TaskOk, Untouched;
    LocalStepKeepsInv(s, s.(tasks := s.tasks - {t}), s.tasks[t].job);
  }

  lemma DropKeepsInv(s: System, t: TaskId)
    requires Inv(s)
    ensures Inv(DropStep(s, t))
  {
    hide JobOk, TaskOk;
    var n := DropStep(s, t);
    if n != s {
      var rest := s.(tasks := s.tasks - {t});
      DroppedKeepsInv(s, t);
      hide Inv;
      OnlyWorkersKeepsInv(rest, n);
    }
  }

  lemma AdvanceKeepsInv(s: System, t: TaskId, choice: Choice)
    requires Inv(s)
    ensures Inv(TaskStep(s, t, choice))
  {
    hide JobOk, TaskOk, AdvanceTask;
    if t in s.tasks {
      var n := TaskStep(s, t, choice);
      var task := s.tasks[t];
      assert TaskHolds(s, t) && JobOk(ViewIn(s, task.job));
      AdvanceTouchesItsJob(s.store, s.capabilities, task, choice);
      AdvanceKeepsView(s, task, choice);
      forall other: JobId | other != task.job ensures ViewIn(n, other) == ViewIn(s, other) {
        AdvanceIsLocal(s, task, choice, other);
      }
      OneTaskSteps(s, n, t);
    }
  }

  lemma OneTaskSteps(s: System, n: System, t: TaskId)
    requires Inv(s) && t in s.tasks && t in n.tasks && n.store.Valid()
    requires n == s.(store := n.store, log := n.log, tasks := s.tasks[t := n.tasks[t]])
    requires n.tasks[t].job == s.tasks[t].job && n.tasks[t].worker == s.tasks[t].worker
    requires forall other: JobId :: other != s.tasks[t].job ==> ViewIn(n, other) == ViewIn(s, other)
    requires JobOk(ViewIn(n, s.tasks[t].job)) && TaskOk(ViewIn(n, s.tasks[t].job), n.tasks[t])
    requires ViewIn(n, s.tasks[t].job).claim == ViewIn(s, s.tasks[t].job).claim || ViewIn(n, s.tasks[t].job).claim.None?
    ensures Inv(n)
  {
    hide JobOk, TaskOk, Untouched, ViewIn;
    TaskFacts(ViewIn(n, s.tasks[t].job), n.tasks[t]);
    LocalStepKeepsInv(s, n, s.tasks[t].job);
  }

  lemma WorkerStepKeepsInv(s: System, event: Event)
    requires Inv(s) && (event.Open? || event.Decide? || event.Stop?)
    ensures Inv(WorkerStep(s, event))
  {
    var n := WorkerStep(s, event);
    OnlyWorkersKeepsInv(s, n);
  }

  lemma OnlyWorkersKeepsInv(s: System, n: System)
    requires Inv(s) && n == s.(workers := n.workers) && s.workers.Keys <= n.workers.Keys
    requires forall worker :: worker in n.workers ==>
      n.workers[worker].Pending() == if worker in s.workers then s.workers[worker].Pending() else []
    ensures Inv(n)
  {
    hide JobOk, TaskOk, Untouched, View;
    forall job: JobId ensures JobOk(ViewIn(n, job)) {
      assert JobOk(ViewIn(s, job));
    }
    forall t | t in n.tasks ensures TaskHolds(n, t) {
      assert TaskHolds(s, t);
    }
    forall worker | worker in n.workers ensures PendingOk(n, worker) {
      if worker in s.workers {
        assert PendingOk(s, worker);
        PendingFrame(s, n, worker);
      }
    }
    forall job | job in n.store.claims ensures Backed(n, job) {
      assert Backed(s, job);
      BackedFrame(s, n, job);
    }
  }

  lemma SpawnKeepsInv(s: System, worker: WorkerId)
    requires Inv(s)
    ensures Inv(SpawnStep(s, worker))
  {
    hide JobOk, TaskOk, View;
    var n := SpawnStep(s, worker);
    if n != s {
      var pending := s.workers[worker].pc.pending;
      var job := pending[0];
      assert PendingOk(s, worker) && job in pending;
      assert NoTaskOn(s, job) && pending == [job] + pending[1..];
      StartsOk(ViewIn(s, job), n.tasks[s.nextTask]);
      NewTask(s, n, worker, job);
    }
  }

  lemma StartsOk(v: JobView, task: Task)
    requires Untouched(v) && v.claim == Some(task.worker) && task.pc.Fetch? && task.handlers == 0 && !task.rejected
    ensures TaskOk(v, task)
  {
  }

  /** A pending job of `worker` becomes its newest task. */
  lemma NewTask(s: System, n: System, worker: WorkerId, job: JobId)
    requires Inv(s) && worker in s.workers && worker in n.workers && NoTaskOn(s, job)
    requires s.nextTask in n.tasks
    requires n == s.(tasks := s.tasks[s.nextTask := n.tasks[s.nextTask]], nextTask := s.nextTask + 1,
                     workers := s.workers[worker := n.workers[worker]])
    requires s.workers[worker].Pending() == [job] + n.workers[worker].Pending()
    requires var task := n.tasks[s.nextTask];
      task.job == job && task.worker == worker && !task.pc.Settled? && TaskOk(ViewIn(s, job), task)
    ensures Inv(n)
  {
    hide JobOk, TaskOk, Untouched, View, Backed;
    forall other: JobId ensures JobOk(ViewIn(n, other)) && ViewIn(n, other) == ViewIn(s, other) {
      assert JobOk(ViewIn(s, other));
    }
    assert s.nextTask !in s.tasks by {
      assert forall t :: t in s.tasks ==> TaskHolds(s, t);
    }
    forall t | t in n.tasks ensures TaskHolds(n, t) {
      assert t == s.nextTask || TaskHolds(s, t);
    }
    forall other | other in n.workers ensures PendingOk(n, other) {
      NewTaskPending(s, n, worker, job, other);
    }
    forall claimed | claimed in n.store.claims ensures Backed(n, claimed) {
      NewTaskBacks(s, n, worker, job, claimed);
    }
  }

  lemma NewTaskBacks(s: System, n: System, worker: WorkerId, job: JobId, claimed: JobId)
    requires Inv(s) && worker in s.workers && worker in n.workers && s.nextTask in n.tasks && s.nextTask !in s.tasks
    requires n == s.(tasks := s.tasks[s.nextTask := n.tasks[s.nextTask]], nextTask := s.nextTask + 1,
                     workers := s.workers[worker := n.workers[worker]])
    requires s.workers[worker].Pending() == [job] + n.workers[worker].Pending()
    requires n.tasks[s.nextTask].job == job && !n.tasks[s.nextTask].pc.Settled? && claimed in n.store.claims
    ensures Backed(n, claimed)
  {
    hide JobOk, TaskHolds, PendingOk;
    if claimed == job {
      assert Working(n, s.nextTask, job);
    } else {
      assert Backed(s, claimed);
      BackedFrame(s, n, claimed);
    }
  }

  lemma NewTaskPending(s: System, n: System, worker: WorkerId, job: JobId, other: WorkerId)
    requires worker in s.workers && worker in n.workers && other in s.workers && PendingOk(s, worker) && PendingOk(s, other)
    requires n.workers == s.workers[worker := n.workers[worker]]
    requires s.workers[worker].Pending() == [job] + n.workers[worker].Pending()
    requires forall other: JobId :: ViewIn(n, other) == ViewIn(s, other)
    requires forall t :: t in n.tasks ==> n.tasks[t].job == job || (t in s.tasks && n.tasks[t].job == s.tasks[t].job)
    ensures PendingOk(n, other)
  {
    hide Untouched, ViewIn;
    assert s.workers[worker].Pending()[0] == job;
    forall id | id in n.workers[other].Pending()
      ensures Untouched(ViewIn(n, id)) && ViewIn(n, id).claim == Some(other) && NoTaskOn(n, id)
    {
      assert id in s.workers[other].Pending() && NoTaskOn(s, id);
      if other == worker {
        var k :| 0 <= k < |n.workers[worker].Pending()| && n.workers[worker].Pending()[k] == id;
        assert s.workers[worker].Pending()[k + 1] == id;
      } else {
        assert ViewIn(s, job).claim == Some(worker);
      }
    }
    if other == worker {
      var pending := s.workers[worker].Pending();
      assert forall i :: 0 <= i < |n.workers[worker].Pending()| ==> n.workers[worker].Pending()[i] == pending[i + 1];
    }
  }

  lemma ClaimKeepsView(v: JobView, worker: WorkerId)
    requires JobOk(v) && v.claim.None? && v.record.Some? && v.record.value.state.Runnable()
    ensures JobOk(v.(claim := Some(worker))) && Untouched(v.(claim := Some(worker)))
  {
  }

  lemma ClaimableIsFree(s: System, job: JobId, worker: WorkerId)
    requires Inv(s) && s.store.Claimable(job)
    ensures JobOk(ViewIn(s, job).(claim := Some(worker))) && Untouched(ViewIn(s, job).(claim := Some(worker)))
    ensures NoTaskOn(s, job) && ViewIn(s, job).claim.None?
  {
    hide JobOk, TaskOk, Untouched, Backed, PendingOk;
    assert JobOk(ViewIn(s, job));
    ClaimKeepsView(ViewIn(s, job), worker);
    forall t | t in s.tasks ensures s.tasks[t].job != job {
      assert TaskHolds(s, t);
      TaskFacts(ViewIn(s, s.tasks[t].job), s.tasks[t]);
    }
  }

  lemma ClaimKeepsInv(s: System, worker: WorkerId)
    requires Inv(s)
    ensures Inv(ClaimStep(s, worker))
  {
    hide Inv;
    if worker in s.workers && s.workers[worker].pc.Looping? {
      if Available(s, worker) == 0 {
        OnlyWorkersKeepsInv(s, ClaimStep(s, worker));
      } else {
        ClaimedKeepsInv(s, worker);
      }
    }
  }

  lemma ClaimedKeepsInv(s: System, worker: WorkerId)
    requires Inv(s) && Available(s, worker) > 0
    ensures Inv(ClaimStep(s, worker))
  {
    hide JobOk, TaskOk, Untouched, Backed, PendingOk, NoTaskOn, TaskHolds, Distinct, ViewIn;
    var n := ClaimStep(s, worker);
    var picked := n.workers[worker].Pending();
    PickedIsOldestFirst(s.store, Available(s, worker));
    forall job: JobId | job in picked
      ensures JobOk(ViewIn(n, job)) && Untouched(ViewIn(n, job)) && NoTaskOn(s, job)
              && ViewIn(s, job).claim.None? && ViewIn(n, job).claim == Some(worker)
    {
      ClaimableIsFree(s, job, worker);
      ClaimedView(s, worker, job);
    }
    forall job: JobId | job !in picked ensures ViewIn(n, job) == ViewIn(s, job) {
      ClaimedView(s, worker, job);
    }
    NewClaims(s, n, worker, picked);
  }

  lemma ClaimedView(s: System, worker: WorkerId, job: JobId)
    requires Available(s, worker) > 0
    ensures var n := ClaimStep(s, worker);
      ViewIn(n, job) == if job in n.workers[worker].Pending() then ViewIn(s, job).(claim := Some(worker)) else ViewIn(s, job)
  {
  }

  lemma NewClaims(s: System, n: System, worker: WorkerId, picked: seq<JobId>)
    requires Inv(s) && worker in s.workers && worker in n.workers
    requires n == s.(store := n.store, workers := s.workers[worker := n.workers[worker]]) && n.store.Valid()
    requires n.workers[worker].Pending() == picked && s.workers[worker].Pending() == []
    requires forall i, k :: 0 <= i < k < |picked| ==> picked[i] != picked[k]
    requires forall job :: job in picked ==>
      && JobOk(ViewIn(n, job)) && Untouched(ViewIn(n, job)) && NoTaskOn(s, job)
      && ViewIn(n, job).claim == Some(worker) && ViewIn(s, job).claim.None?
    requires forall job: JobId :: job !in picked ==> ViewIn(n, job) == ViewIn(s, job)
    ensures Inv(n)
  {
    hide JobOk, TaskOk, Untouched;
    forall job: JobId ensures JobOk(ViewIn(n, job)) {
      assert JobOk(ViewIn(s, job));
    }
    forall t | t in n.tasks ensures TaskHolds(n, t) {
      assert TaskHolds(s, t) && s.tasks[t].job !in picked;
    }
    forall other | other in n.workers ensures PendingOk(n, other) {
      assert PendingOk(s, other);
      if other != worker {
        assert forall job :: job in s.workers[other].Pending() ==> ViewIn(s, job).claim.Some?;
        PendingFrame(s, n, other);
      }
    }
    forall job | job in n.store.claims ensures Backed(n, job) {
      if job !in picked {
        assert ViewIn(n, job).claim == ViewIn(s, job).claim;
        assert Backed(s, job);
        BackedFrame(s, n, job);
      } else {
        assert ViewIn(n, job).claim == Some(worker);
      }
    }
  }

  lemma ApplyKeepsInv(s: System, event: Event)
    requires Inv(s)
    ensures Inv(Apply(s, event))
  {
    match event
    case EnqueueJob(job, input) => EnqueueKeepsInv(s, job, input);
    case RequestCancel(job) => CancelKeepsInv(s, job);
    case Claim(worker) => ClaimKeepsInv(s, worker);
    case Spawn(worker) => SpawnKeepsInv(s, worker);
    case Advance(t, choice) => AdvanceKeepsInv(s, t, choice);
    case Drop(t) => DropKeepsInv(s, t);
    case _ => WorkerStepKeepsInv(s, event);
  }

  lemma {:induction false} RunKeepsInv(s: System, events: seq<Event>)
    requires Inv(s)
    ensures Inv(Run(s, events))
    decreases |events|
  {
    hide Inv, Apply;
    if events != [] {
      ApplyKeepsInv(s, events[0]);
      RunKeepsInv(Apply(s, events[0]), events[1..]);
    }
  }

  /** The invariant holds in every reachable state of every run. */
  lemma ReachableHasInv(s: System)
    requires Reachable(s)
    ensures Inv(s)
  {
    hide Inv, Apply, WellFormedStart;
    var start: System, events: seq<Event> :| WellFormedStart(start) && s == Run(start, events);
    StartHasInv(start);
    RunKeepsInv(start, events);
  }
}

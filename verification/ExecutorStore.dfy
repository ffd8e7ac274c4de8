/**
 The in-memory job store of the durable executor (lib/executor.ts:105-266).

 `StoreState` is the store as a value and the functions on it say what each call does;
 `InMemoryStore` is the class that updates its fields in place, proved to do the same.
 No store method awaits anything inside, so one call is one atomic step.
 Cloning is the identity on values; `createdAt` and `updatedAt` are not modelled.
 */
module ExecutorStore {
  import opened Wrappers
  import opened StructuredValues

  type JobId = string
  type WorkerId = string

  datatype JobState = Queued | Running | Waiting | Completed | Failed | Cancelled {
    predicate Terminal() { Completed? || Failed? || Cancelled? }

    predicate Runnable() { Queued? || Waiting? }
  }

  datatype JobError = JobError(name: string, message: string)

  datatype Record = Record(
    state: JobState,
    input: StructuredValue,
    attempts: nat,
    capability: Option<string>,
    args: Option<seq<StructuredValue>>,
    result: Option<StructuredValue>,
    error: Option<JobError>)

  /** What `Progress.dump()` yields: the suspended call and the opaque snapshot bytes. */
  datatype Persisted = Persisted(capability: string, args: seq<StructuredValue>, snapshot: seq<byte>)

  /** A patch names the fields it touches; a field may be set to `undefined` (`Put(None)`). */
  datatype Field<T> = Keep | Put(value: Option<T>)

  datatype Patch = Patch(
    state: JobState,
    attempts: Option<nat>,
    capability: Field<string>,
    args: Field<seq<StructuredValue>>,
    result: Field<StructuredValue>,
    error: Field<JobError>)

  datatype StoreError = UnknownJob | InvalidTransition | TerminalJob

  datatype CancelReply = Ignored | CancelledNow | Requested

  const EXECUTION_CANCELLED := JobError("MustardLimitError", "execution cancelled")

  /** `validateTransition` does not throw. */
  predicate AllowedTransition(current: JobState, next: JobState) {
    current == next
    || match current
       case Queued => next == Running || next == Cancelled
       case Running => next == Waiting || next == Completed || next == Failed || next == Cancelled
       case Waiting => next == Running || next == Failed || next == Cancelled
       case _ => false
  }

  /** The moves a job may make; staying in a state is always let through. */
  lemma TransitionTable(current: JobState, next: JobState)
    ensures AllowedTransition(current, next) <==> current == next || (current, next) in {
      (Queued, Running), (Queued, Cancelled),
      (Running, Waiting), (Running, Completed), (Running, Failed), (Running, Cancelled),
      (Waiting, Running), (Waiting, Failed), (Waiting, Cancelled) }
  {
  }

  function Patched<T>(field: Field<T>, current: Option<T>): Option<T> {
    match field
    case Keep => current
    case Put(value) => value
  }

  function ApplyPatch(current: Record, patch: Patch): Record {
    Record(
      patch.state,
      current.input,
      if patch.attempts.Some? then patch.attempts.value else current.attempts,
      Patched(patch.capability, current.capability),
      Patched(patch.args, current.args),
      Patched(patch.result, current.result),
      Patched(patch.error, current.error))
  }

  /** `claims` with every one of `ids` handed to `worker`. */
  function Granted(claims: map<JobId, WorkerId>, ids: seq<JobId>, worker: WorkerId): (granted: map<JobId, WorkerId>)
    ensures granted.Keys == claims.Keys + set job | job in ids
    ensures forall job :: job in granted ==> granted[job] == if job in ids then worker else claims[job]
  {
    if ids == [] then claims
    else Granted(claims, ids[..|ids| - 1], worker)[ids[|ids| - 1] := worker]
  }

  /** `order` is the iteration order of the `_jobs` map, i.e. insertion order. */
  datatype StoreState = StoreState(
    order: seq<JobId>,
    jobs: map<JobId, Record>,
    progress: map<JobId, Persisted>,
    claims: map<JobId, WorkerId>,
    cancels: set<JobId>)
  {
    ghost predicate Valid() {
      && (forall i, k :: 0 <= i < k < |order| ==> order[i] != order[k])
      && (forall job :: job in order <==> job in jobs)
    }

    predicate Claimable(job: JobId) {
      job in jobs && jobs[job].state.Runnable() && job !in claims
    }

    function Enqueue(job: JobId, record: Record): StoreState {
      if job in jobs then this
      else this.(order := order + [job], jobs := jobs[job := record])
    }

    /** The jobs `claimRunnable` hands out, `claimed` being those it already has. */
    function Picked(candidates: seq<JobId>, limit: nat, claimed: seq<JobId>): seq<JobId>
      decreases |candidates|
    {
      if candidates == [] || |claimed| >= limit then claimed
      else Picked(candidates[1..], limit, if Claimable(candidates[0]) then claimed + [candidates[0]] else claimed)
    }

    function ClaimAll(ids: seq<JobId>, worker: WorkerId): StoreState {
      this.(claims := Granted(claims, ids, worker))
    }

    function ReleaseClaim(job: JobId, worker: WorkerId): StoreState {
      if job in claims && claims[job] == worker then this.(claims := claims - {job}) else this
    }

    function Update(job: JobId, patch: Patch): Result<StoreState, StoreError> {
      if job !in jobs then Failure(UnknownJob)
      else if !AllowedTransition(jobs[job].state, patch.state) then Failure(InvalidTransition)
      else Success(this.(jobs := jobs[job := ApplyPatch(jobs[job], patch)]))
    }

    function SaveProgress(job: JobId, dumped: Persisted): Result<StoreState, StoreError> {
      if job !in jobs then Failure(UnknownJob)
      else if jobs[job].state.Terminal() then Failure(TerminalJob)
      else Success(this.(progress := progress[job := dumped]))
    }

    function DeleteProgress(job: JobId): StoreState {
      this.(progress := progress - {job})
    }

    function CancelReplyFor(job: JobId): CancelReply {
      if job !in jobs || jobs[job].state.Terminal() then Ignored
      else if jobs[job].state.Queued? then CancelledNow
      else Requested
    }

    function RequestCancel(job: JobId): StoreState {
      match CancelReplyFor(job)
      case Ignored => this
      case CancelledNow =>
        this.(
          jobs := jobs[job := jobs[job].(state := Cancelled, capability := None, args := None,
                                         result := None, error := Some(EXECUTION_CANCELLED))],
          progress := progress - {job})
      case Requested => this.(cancels := cancels + {job})
    }

    function ConsumeCancel(job: JobId): StoreState {
      this.(cancels := cancels - {job})
    }
  }

  /** What `claimRunnable` promises, independently of how it walks the map: it hands out at most
      `limit` distinct claimable jobs, it stops early only when none is left, and it never skips
      an older claimable job in favour of a younger one. */
  lemma PickedIsOldestFirst(st: StoreState, limit: nat)
    requires st.Valid()
    ensures var picked := st.Picked(st.order, limit, []);
      && |picked| <= limit
      && (forall job :: job in picked ==> st.Claimable(job))
      && (forall i, k :: 0 <= i < k < |picked| ==> picked[i] != picked[k])
      && (|picked| < limit ==> forall job :: st.Claimable(job) ==> job in picked)
      && (forall i, k :: 0 <= i < k < |st.order| && st.Claimable(st.order[i]) && st.order[k] in picked
                         ==> st.order[i] in picked)
  {
    assert st.order[0..] == st.order;
    var _ := PickedFrom(st, 0, limit, []);
  }

  /** The picks have covered the first `i` jobs. */
  ghost predicate Covers(st: StoreState, i: nat, limit: nat, claimed: seq<JobId>)
    requires i <= |st.order|
  {
    && |claimed| <= limit
    && (forall job :: job in claimed ==> job in st.order[..i] && st.Claimable(job))
    && (forall k :: 0 <= k < i && st.Claimable(st.order[k]) ==> st.order[k] in claimed)
    && (forall i, k :: 0 <= i < k < |claimed| ==> claimed[i] != claimed[k])
  }

  lemma {:induction false} PickedFrom(st: StoreState, i: nat, limit: nat, claimed: seq<JobId>) returns (n: nat)
    requires st.Valid() && i <= |st.order| && Covers(st, i, limit, claimed)
    ensures i <= n <= |st.order| && Covers(st, n, limit, st.Picked(st.order[i..], limit, claimed))
    ensures n == |st.order| || |st.Picked(st.order[i..], limit, claimed)| == limit
    decreases |st.order| - i
  {
    n := i;
    if i < |st.order| && |claimed| < limit {
      var job := st.order[i];
      assert st.order[i..][1..] == st.order[i + 1..];
      assert st.order[..i + 1] == st.order[..i] + [job];
      n := PickedFrom(st, i + 1, limit, if st.Claimable(job) then claimed + [job] else claimed);
    }
  }

  class InMemoryStore {
    var order: seq<JobId>
    var jobs: map<JobId, Record>
    var progress: map<JobId, Persisted>
    var claims: map<JobId, WorkerId>
    var cancellationRequests: set<JobId>

    ghost function State(): StoreState
      reads this
    {
      StoreState(order, jobs, progress, claims, cancellationRequests)
    }

    constructor ()
      ensures State() == StoreState([], map[], map[], map[], {})
      ensures State().Valid()
    {
      order, jobs, progress, claims, cancellationRequests := [], map[], map[], map[], {};
    }

    method Enqueue(job: JobId, record: Record) returns (inserted: bool)
      requires State().Valid()
      modifies this
      ensures State() == old(State()).Enqueue(job, record) && State().Valid()
      ensures inserted <==> job !in old(jobs)
      ensures order == (if inserted then old(order) + [job] else old(order))
      ensures jobs == (if inserted then old(jobs)[job := record] else old(jobs))
      ensures progress == old(progress) && claims == old(claims) && cancellationRequests == old(cancellationRequests)
    {
      if job in jobs {
        return false;
      }
      order, jobs := order + [job], jobs[job := record];
      return true;
    }

    method Get(job: JobId) returns (record: Option<Record>)
      ensures record == if job in jobs then Some(jobs[job]) else None
    {
      record := if job in jobs then Some(jobs[job]) else None;
    }

    method ClaimRunnable(limit: nat, worker: WorkerId) returns (claimed: seq<JobId>)
      requires State().Valid()
      modifies this`claims
      ensures claimed == old(State()).Picked(order, limit, [])
      ensures State() == old(State()).ClaimAll(claimed, worker)
    {
      claimed := [];
      ghost var before := State();
      var ids := order;
      for i := 0 to |ids|
        invariant |claimed| <= limit
        invariant before.Picked(ids[i..], limit, claimed) == before.Picked(ids, limit, [])
        invariant forall k :: i <= k < |ids| ==> ids[k] !in claimed
        invariant claims == Granted(before.claims, claimed, worker)
      {
        assert ids[i..][1..] == ids[i + 1..];
        if |claimed| >= limit {
          break;
        }
        var job := ids[i];
        if !jobs[job].state.Runnable() {
          continue;
        }
        if job in claims {
          continue;
        }
        claims := claims[job := worker];
        claimed := claimed + [job];
      }
    }

    method ReleaseClaim(job: JobId, worker: WorkerId)
      modifies this`claims
      ensures State() == old(State()).ReleaseClaim(job, worker)
      ensures claims == if job in old(claims) && old(claims)[job] == worker then old(claims) - {job} else old(claims)
    {
      if job in claims && claims[job] == worker {
        claims := claims - {job};
      }
    }

    method Update(job: JobId, patch: Patch) returns (thrown: Option<StoreError>)
      requires State().Valid()
      modifies this`jobs
      ensures match old(State()).Update(job, patch)
              case Success(next) => thrown == None && State() == next
              case Failure(error) => thrown == Some(error) && State() == old(State())
      ensures State().Valid()
      ensures thrown == (if job !in old(jobs) then Some(UnknownJob)
                         else if !AllowedTransition(old(jobs)[job].state, patch.state) then Some(InvalidTransition) else None)
      ensures thrown.None? ==>
        var before, after := old(jobs)[job], jobs[job];
        && jobs == old(jobs)[job := after] && after.state == patch.state && after.input == before.input
        && after.attempts == (if patch.attempts.Some? then patch.attempts.value else before.attempts)
        && (if patch.capability.Put? then after.capability == patch.capability.value else after.capability == before.capability)
        && (if patch.args.Put? then after.args == patch.args.value else after.args == before.args)
        && (if patch.result.Put? then after.result == patch.result.value else after.result == before.result)
        && (if patch.error.Put? then after.error == patch.error.value else after.error == before.error)
    {
      if job !in jobs {
        return Some(UnknownJob);
      }
      var current := jobs[job];
      if !AllowedTransition(current.state, patch.state) {
        return Some(InvalidTransition);
      }
      jobs := jobs[job := ApplyPatch(current, patch)];
      return None;
    }

    method SaveProgress(job: JobId, dumped: Persisted) returns (thrown: Option<StoreError>)
      modifies this`progress
      ensures match old(State()).SaveProgress(job, dumped)
              case Success(next) => thrown == None && State() == next
              case Failure(error) => thrown == Some(error) && State() == old(State())
    {
      if job !in jobs {
        return Some(UnknownJob);
      }
      if jobs[job].state.Terminal() {
        return Some(TerminalJob);
      }
      progress := progress[job := dumped];
      return None;
    }

    method LoadProgress(job: JobId) returns (dumped: Option<Persisted>)
      ensures dumped == if job in progress then Some(progress[job]) else None
    {
      dumped := if job in progress then Some(progress[job]) else None;
    }

    method DeleteProgress(job: JobId)
      modifies this`progress
      ensures State() == old(State()).DeleteProgress(job)
    {
      progress := progress - {job};
    }

    method RequestCancel(job: JobId) returns (reply: CancelReply)
      requires State().Valid()
      modifies this
      ensures reply == old(State()).CancelReplyFor(job)
      ensures State() == old(State()).RequestCancel(job) && State().Valid()
      ensures reply == Ignored <==> job !in old(jobs) || old(jobs)[job].state in {Completed, Failed, Cancelled}
      ensures reply == CancelledNow <==> job in old(jobs) && old(jobs)[job].state == Queued
      ensures reply == Requested <==> job in old(jobs) && old(jobs)[job].state in {Running, Waiting}
      ensures reply == Ignored ==> State() == old(State())
      ensures reply == CancelledNow ==>
        && jobs.Keys == old(jobs).Keys && jobs[job].state == Cancelled && jobs[job].error == Some(EXECUTION_CANCELLED)
        && jobs[job].input == old(jobs)[job].input && jobs[job].attempts == old(jobs)[job].attempts
        && (forall other :: other in jobs && other != job ==> jobs[other] == old(jobs)[other])
        && progress == old(progress) - {job} && cancellationRequests == old(cancellationRequests)
      ensures reply == Requested ==>
        cancellationRequests == old(cancellationRequests) + {job} && jobs == old(jobs) && progress == old(progress)
    {
      if job !in jobs || jobs[job].state.Terminal() {
        return Ignored;
      }
      if jobs[job].state == Queued {
        jobs := jobs[job := jobs[job].(state := Cancelled, capability := None, args := None,
                                       result := None, error := Some(EXECUTION_CANCELLED))];
        progress := progress - {job};
        return CancelledNow;
      }
      cancellationRequests := cancellationRequests + {job};
      return Requested;
    }

    method ConsumeCancel(job: JobId) returns (found: bool)
      modifies this`cancellationRequests
      ensures found <==> job in old(cancellationRequests)
      ensures State() == old(State()).ConsumeCancel(job)
      ensures cancellationRequests == old(cancellationRequests) - {job}
    {
      if job !in cancellationRequests {
        assert cancellationRequests - {job} == cancellationRequests;
        return false;
      }
      cancellationRequests := cancellationRequests - {job};
      return true;
    }
  }
}

/**
 The objects behind `ProgressModel`: the process-wide native tables, the claim registry and the
 finalisation registries in `Process`, and the wrapper classes that use them.  Each method is proved
 to make exactly the step of the model it stands for.
 */
module ProgressObjects {
  import opened Wrappers
  import opened StructuredValues
  import opened ProgressModel
  import opened ProgressGate
  import opened ProgressInvariant

  /** What a native call hands back. */
  datatype NativeStep = NativeError | NativeCompleted | NativeSuspended(handle: Handle)

  class Process {
    var programs: map<Handle, ProgramEntry>
    var snapshots: map<Handle, Content>
    var nextHandle: Handle
    var claims: map<Content, Id>
    var programHolders: map<Id, Handle>
    var snapshotHolders: map<Id, Handle>
    ghost var entered: seq<Entered>
    ghost var strays: multiset<Handle>
    ghost var orphans: set<Handle>

    ghost function State(): Env
      reads this
    {
      Env(programs, snapshots, nextHandle, claims, programHolders, snapshotHolders, entered, strays, orphans)
    }

    constructor ()
      ensures State() == START.env
    {
      programs, snapshots, nextHandle, claims := map[], map[], 0, map[];
      programHolders, snapshotHolders, entered, strays, orphans := map[], map[], [], multiset{}, {};
    }

    // ---------------------------------------------------------------- crates/mustard-node/src/lib.rs

    method InsertProgram(code: Code) returns (handle: Handle)
      modifies this
      ensures (State(), handle) == ProgressModel.InsertProgram(old(State()), code)
    {
      handle := nextHandle;
      nextHandle := nextHandle + 1;
      programs := programs[handle := ProgramEntry(code, 1)];
    }

    /** `false` for an unknown handle. */
    method RetainProgram(handle: Handle) returns (ok: bool)
      modifies this
      ensures match ProgressModel.RetainProgram(old(State()), handle)
              case None => !ok && State() == old(State())
              case Some(retained) => ok && State() == retained
    {
      if handle !in programs {
        return false;
      }
      var entry := programs[handle];
      programs := programs[handle := entry.(refCount := entry.refCount + 1)];
      return true;
    }

    method ReleaseProgram(handle: Handle)
      modifies this
      ensures State() == ProgressModel.ReleaseProgram(old(State()), handle)
    {
      var shouldRemove := false;
      if handle in programs {
        var entry := programs[handle];
        if entry.refCount > 1 {
          programs := programs[handle := entry.(refCount := entry.refCount - 1)];
        } else {
          shouldRemove := true;
        }
      }
      if shouldRemove {
        programs := programs - {handle};
      }
    }

    method InsertSnapshot(content: Content) returns (handle: Handle)
      modifies this
      ensures (State(), handle) == ProgressModel.InsertSnapshot(old(State()), content)
    {
      handle := nextHandle;
      nextHandle := nextHandle + 1;
      snapshots := snapshots[handle := content];
    }

    method TakeSnapshot(handle: Handle) returns (taken: Option<Content>)
      modifies this
      ensures taken == if handle in old(snapshots) then Some(old(snapshots)[handle]) else None
      ensures State() == ProgressModel.ReleaseSnapshot(old(State()), handle)
    {
      if handle !in snapshots {
        assert snapshots - {handle} == snapshots;
        return None;
      }
      taken := Some(snapshots[handle]);
      snapshots := snapshots - {handle};
    }

    method ReleaseSnapshotHandle(handle: Handle)
      modifies this
      ensures State() == ProgressModel.ReleaseSnapshot(old(State()), handle)
    {
      snapshots := snapshots - {handle};
    }

    /** `resume_snapshot_handle_buffer`: a payload that does not decode is refused before the snapshot is
        taken, and an unknown handle is an error. */
    method ResumeSnapshotHandle(handle: Handle, decodes: bool, outcome: Outcome) returns (step: NativeStep)
      modifies this
      ensures !decodes || handle !in old(snapshots) ==> step.NativeError? && State() == old(State())
      ensures decodes && handle in old(snapshots) ==>
        var released := ProgressModel.ReleaseSnapshot(old(State()), handle);
        match outcome
        case Fails => step.NativeError? && State() == released
        case Completes => step.NativeCompleted? && State() == released
        case _ => step.NativeSuspended? && (State(), step.handle) == ProgressModel.InsertSnapshot(released, outcome.content)
    {
      if !decodes {
        return NativeError;
      }
      var entry := TakeSnapshot(handle);
      if entry.None? {
        assert State() == old(State()) by { assert old(snapshots) - {handle} == old(snapshots); }
        return NativeError;
      }
      if outcome.Suspends? || outcome.Unreadable? {
        var next := InsertSnapshot(outcome.content);
        return NativeSuspended(next);
      }
      return if outcome.Fails? then NativeError else NativeCompleted;
    }

    // ---------------------------------------------------------------- lib/progress.ts:49-100

    /** Exclusive creation of the claim file. */
    method ClaimSnapshot(content: Content, id: Id) returns (claimed: bool)
      modifies this
      ensures claimed <==> content !in old(claims)
      ensures State() == if claimed then old(State()).(claims := old(claims)[content := id]) else old(State())
    {
      if content in claims {
        return false;
      }
      claims := claims[content := id];
      return true;
    }

    /** The finaliser of a collected owner's program. */
    method FinalizeProgram(owner: Id)
      requires owner in programHolders
      modifies this
      ensures var released := ProgressModel.ReleaseProgram(old(State()), old(programHolders)[owner]);
        State() == released.(programHolders := released.programHolders - {owner})
    {
      ReleaseProgram(programHolders[owner]);
      programHolders := programHolders - {owner};
    }

    method FinalizeSnapshot(owner: Id)
      requires owner in snapshotHolders
      modifies this
      ensures var released := ProgressModel.ReleaseSnapshot(old(State()), old(snapshotHolders)[owner]);
        State() == released.(snapshotHolders := released.snapshotHolders - {owner})
    {
      ReleaseSnapshotHandle(snapshotHolders[owner]);
      snapshotHolders := snapshotHolders - {owner};
    }

    method ReleaseClaim(content: Content)
      modifies this
      ensures State() == old(State()).(claims := old(claims) - {content})
    {
      claims := claims - {content};
    }
  }

  // ------------------------------------------------------------------ progress objects

  /** An object stands for the model's object of that name. */
  ghost predicate Represents(o: ProgressObject, id: Id, objects: map<Id, Progress>)
    reads o
  {
    o.id == id && id in objects && o.View() == objects[id]
  }

  class ProgressObject {
    const id: Id
    var claimState: ClaimState
    var identity: Option<Content>
    var bytes: Option<Content>
    var snapshotHandle: Option<Handle>
    var programHandle: Option<Handle>
    var program: Option<Code>

    ghost function View(): Progress
      reads this
    {
      Progress(claimState, identity, bytes, snapshotHandle, programHandle, program)
    }

    /** Registers the handles it is given for finalisation. */
    constructor (process: Process, id: Id, claimState: ClaimState, bytes: Option<Content>, snapshotHandle: Option<Handle>,
                 programHandle: Option<Handle>, program: Option<Code>)
      modifies process
      ensures this.id == id && View() == Progress(claimState, bytes, bytes, snapshotHandle, programHandle, program)
      ensures process.State() == old(process.State()).(
        programHolders := if programHandle.Some? then old(process.programHolders)[id := programHandle.value] else old(process.programHolders),
        snapshotHolders := if snapshotHandle.Some? then old(process.snapshotHolders)[id := snapshotHandle.value] else old(process.snapshotHolders))
    {
      this.id, this.claimState, this.identity, this.bytes := id, claimState, bytes, bytes;
      this.snapshotHandle, this.programHandle, this.program := snapshotHandle, programHandle, program;
      new;
      if programHandle.Some? {
        process.programHolders := process.programHolders[id := programHandle.value];
      }
      if snapshotHandle.Some? {
        process.snapshotHolders := process.snapshotHolders[id := snapshotHandle.value];
      }
    }

    method ClearSnapshotHandle(process: Process)
      modifies this`snapshotHandle, process`snapshotHolders
      ensures View() == old(View()).(snapshotHandle := None)
      ensures process.State() == old(process.State()).(snapshotHolders := old(process.snapshotHolders) - {id})
    {
      process.snapshotHolders := process.snapshotHolders - {id};
      snapshotHandle := None;
    }

    /** `None` when it throws. */
    method EnsureSnapshotBytes(process: Process) returns (snapshot: Option<Content>)
      modifies this`bytes, this`identity
      ensures match EnsureBytes(process.State(), old(View()))
              case None => snapshot.None? && View() == old(View())
              case Some(p) => View() == p && snapshot == p.bytes
    {
      if bytes.Some? {
        return bytes;
      }
      if snapshotHandle.None? || snapshotHandle.value !in process.snapshots {
        return None;
      }
      bytes := Some(process.snapshots[snapshotHandle.value]);
      if identity.None? {
        identity := bytes;
      }
      return bytes;
    }

    method EnsureProgramBytes(process: Process)
      modifies this`program
      ensures View() == ProgressModel.EnsureProgramBytes(process.State(), old(View()))
    {
      if program.Some? || programHandle.None? {
        return;
      }
      if programHandle.value in process.programs {
        program := Some(process.programs[programHandle.value].code);
      }
    }

    /** The step a dump makes in the model. */
    method Dump(process: Process, ghost w: World) returns (snapshot: Option<Content>)
      requires id in w.objects && w.objects[id] == View() && w.env == process.State()
      modifies this
      ensures View() == DumpStep(w, id).objects[id] && process.State() == DumpStep(w, id).env
      ensures snapshot.Some? ==> snapshot == View().bytes
    {
      snapshot := EnsureSnapshotBytes(process);
      if snapshot.Some? {
        EnsureProgramBytes(process);
      }
    }

    /** `None` when it throws; otherwise the handle, if there is one. */
    method ConsumeSnapshotHandle(process: Process) returns (handle: Option<Option<Handle>>)
      modifies this, process
      ensures ConsumeRefused(old(process.State()), old(View())) ==>
        handle.None? && View() == old(View()) && process.State() == old(process.State())
      ensures !ConsumeRefused(old(process.State()), old(View())) && old(snapshotHandle).None? ==> handle == Some(None)
      ensures !ConsumeRefused(old(process.State()), old(View())) && old(snapshotHandle).Some? ==>
        && handle == Some(old(snapshotHandle))
        && View() == old(View()).(snapshotHandle := None, claimState := Consumed)
        && process.State() ==
           ClaimFor(old(process.State()), id, old(View())).(snapshotHolders := old(process.snapshotHolders) - {id})
    {
      if claimState.Consumed? {
        return None;
      }
      if claimState.Unclaimed? && identity.Some? {
        var claimed := process.ClaimSnapshot(identity.value, id);
        if !claimed {
          return None;
        }
      }
      if snapshotHandle.None? {
        return Some(None);
      }
      handle := Some(snapshotHandle);
      ClearSnapshotHandle(process);
      claimState := Consumed;
    }

    /** Does what `ResumeStep` says, and with a state that satisfies the invariant never needs the path
        that resumes from bytes.  `decodes` says whether the native side accepts the payload; it fails if
        not. */
    method ResumeWithPayload(process: Process, decodes: bool, outcome: Outcome, nextId: Id, ghost w: World)
      returns (thrown: bool, next: Option<ProgressObject>)
      requires Inv(w) && id in w.objects && w.objects[id] == View() && w.env == process.State() && nextId == w.nextId
      modifies this, process
      ensures var after := ResumeStep(w, id, if decodes then outcome else Fails);
        && process.State() == after.env && id in after.objects && View() == after.objects[id]
        && (next.Some? <==> Enters(w, id) && decodes && Continues(outcome))
        && (next.Some? ==> fresh(next.value) && Represents(next.value, nextId, after.objects))
      ensures thrown <==> !Enters(w, id) || !decodes || Throws(outcome)
    {
      hide Inv, Settle, Enter, ConsumeRefused;
      ResumeFacts(w, id);
      EnterTables(w, id);
      var consumed := ConsumeSnapshotHandle(process);
      if consumed.None? {
        return true, None;
      }
      var handle := consumed.value.value;
      ghost var entry := Entered(id, handle, process.snapshots[handle], w.objects[id].identity.Some?);
      process.entered := process.entered + [entry];
      SettleKeepsOthers(Enter(w, id), if decodes then outcome else Fails, programHandle, program, id);
      thrown, next := FinishResume(process, handle, decodes, outcome, programHandle, program, nextId, Enter(w, id));
    }
  }

  lemma EnterTables(w: World, id: Id)
    ensures Enters(w, id) ==>
      var p, after := w.objects[id], Enter(w, id);
      && after.env == ClaimFor(w.env, id, p).(
           snapshotHolders := w.env.snapshotHolders - {id}, snapshots := w.env.snapshots - {p.snapshotHandle.value},
           entered := w.env.entered + [Entered(id, p.snapshotHandle.value, w.env.snapshots[p.snapshotHandle.value], p.identity.Some?)])
      && after.objects == w.objects[id := p.(snapshotHandle := None, claimState := Consumed)] && after.nextId == w.nextId
  {
  }

  /** The outcomes of a native call an object is made of, and those the caller sees thrown. */
  predicate Continues(outcome: Outcome) {
    outcome.Suspends? && outcome.capability != ""
  }

  predicate Throws(outcome: Outcome) {
    outcome.Fails? || outcome.Unreadable? || (outcome.Suspends? && outcome.capability == "")
  }

  /** The `try` and `finally` of a resume: the native call, the object for its next suspension, and the
      handle released once more. */
  method FinishResume(process: Process, handle: Handle, decodes: bool, outcome: Outcome, programHandle: Option<Handle>,
                      program: Option<Code>, nextId: Id, ghost w: World)
    returns (thrown: bool, next: Option<ProgressObject>)
    requires handle in process.snapshots && handle < process.nextHandle
    requires process.State() == w.env.(snapshots := process.snapshots) && process.snapshots - {handle} == w.env.snapshots
    requires nextId == w.nextId && (programHandle.Some? ==> programHandle.value in w.env.programs)
    modifies process
    ensures var after := Settle(w, if decodes then outcome else Fails, programHandle, program);
      && process.State() == after.env
      && (next.Some? <==> decodes && Continues(outcome))
      && (next.Some? ==> fresh(next.value) && Represents(next.value, nextId, after.objects))
    ensures thrown <==> !decodes || Throws(outcome)
  {
    hide Settle, Materialized;
    ghost var before := process.snapshots;
    SettledIsMaterialized(w, if decodes then outcome else Fails, programHandle, program);
    var step := process.ResumeSnapshotHandle(handle, decodes, outcome);
    thrown, next := step.NativeError?, None;
    if step.NativeSuspended? {
      if outcome.Unreadable? {
        thrown := true;
        process.orphans := process.orphans + {step.handle};
      } else {
        next := MaterializeStep(process, outcome.capability, step.handle, programHandle, program, nextId);
        thrown := next.None?;
      }
    }
    SameInAnyOrder(before, handle, w.env.nextHandle, outcome);
    process.ReleaseSnapshotHandle(handle);
  }

  /** What the invariant says of an object about to be resumed. */
  lemma ResumeFacts(w: World, id: Id)
    requires Inv(w) && id in w.objects
    ensures Enters(w, id) <==> !ConsumeRefused(w.env, w.objects[id])
    ensures w.objects[id].programHandle.Some? ==> w.objects[id].programHandle.value in w.env.programs
    ensures w.objects[id].snapshotHandle.Some? ==> w.objects[id].snapshotHandle.value < w.env.nextHandle
    ensures id < w.nextId
  {
    assert ObjectOk(w.env, id, w.objects[id]);
  }

  /** Releasing a handle again after a new one was given out. */
  lemma SettledIsMaterialized(w: World, outcome: Outcome, programHandle: Option<Handle>, program: Option<Code>)
    requires programHandle.Some? ==> programHandle.value in w.env.programs
    ensures var after := Settle(w, outcome, programHandle, program);
      match outcome
      case Suspends(capability, content) =>
        var (inserted, handle) := InsertSnapshot(w.env, content);
        && after.env == Materialized(inserted, capability, w.nextId, handle, programHandle)
        && after.env.snapshots == inserted.snapshots
        && (capability != "" ==>
              after.objects == w.objects[w.nextId := Progress(Unclaimed, None, None, Some(handle), programHandle, program)])
      case Unreadable(content) => after.env == Orphan(w.env, content)
      case _ => after == w
  {
    hide Suspend, SuspendUnnamed;
    if outcome.Suspends? {
      NamedIsMaterialized(w, outcome.capability, outcome.content, programHandle, program);
      UnnamedIsMaterialized(w, outcome.content, programHandle);
    }
  }

  lemma NamedIsMaterialized(w: World, capability: string, content: Content, programHandle: Option<Handle>, program: Option<Code>)
    requires programHandle.Some? ==> programHandle.value in w.env.programs
    ensures var after := Suspend(w, content, programHandle, program);
      var (inserted, handle) := InsertSnapshot(w.env, content);
      capability != "" ==>
        && after.env == Materialized(inserted, capability, w.nextId, handle, programHandle)
        && after.env.snapshots == inserted.snapshots
        && after.objects == w.objects[w.nextId := Progress(Unclaimed, None, None, Some(handle), programHandle, program)]
  {
  }

  lemma UnnamedIsMaterialized(w: World, content: Content, programHandle: Option<Handle>)
    requires programHandle.Some? ==> programHandle.value in w.env.programs
    ensures var after := SuspendUnnamed(w, content, programHandle);
      var (inserted, handle) := InsertSnapshot(w.env, content);
      after.env == Materialized(inserted, "", w.nextId, handle, programHandle) && after.env.snapshots == inserted.snapshots
  {
  }

  lemma SameInAnyOrder(snapshots: map<Handle, Content>, handle: Handle, next: Handle, outcome: Outcome)
    requires handle < next
    ensures (snapshots - {handle}) - {handle} == snapshots - {handle}
    ensures outcome.Suspends? || outcome.Unreadable? ==>
      (snapshots - {handle})[next := outcome.content] - {handle} == (snapshots - {handle})[next := outcome.content]
  {
  }

  /** `createSuspendedManifest` throws. */
  predicate Unnamed(capability: string, hasManifest: bool) {
    !hasManifest && capability == ""
  }

  /** `new Progress`; `None` when it throws, which is before anything is registered. */
  method MakeProgress(process: Process, capability: string, hasManifest: bool, id: Id, claimState: ClaimState,
                      bytes: Option<Content>, snapshotHandle: Option<Handle>, programHandle: Option<Handle>, program: Option<Code>)
    returns (made: Option<ProgressObject>)
    modifies process
    ensures Unnamed(capability, hasManifest) ==> made.None? && process.State() == old(process.State())
    ensures !Unnamed(capability, hasManifest) ==>
      && made.Some? && fresh(made.value) && made.value.id == id
      && made.value.View() == Progress(claimState, bytes, bytes, snapshotHandle, programHandle, program)
      && process.State() == Registering(old(process.State()), id, snapshotHandle, programHandle)
  {
    if !hasManifest && |capability| == 0 {
      return None;
    }
    var progress := new ProgressObject(process, id, claimState, bytes, snapshotHandle, programHandle, program);
    return Some(progress);
  }

  /** The tables once the handles of a new object are registered for finalisation. */
  ghost function Registering(env: Env, id: Id, snapshotHandle: Option<Handle>, programHandle: Option<Handle>): Env {
    env.(programHolders := if programHandle.Some? then env.programHolders[id := programHandle.value] else env.programHolders,
         snapshotHolders := if snapshotHandle.Some? then env.snapshotHolders[id := snapshotHandle.value] else env.snapshotHolders)
  }

  /** `materializeStep` on a suspension; `None` when it throws: when retaining the program throws, which is
      when it is gone, and, after the program was retained, when the capability has no name. */
  method MaterializeStep(process: Process, capability: string, snapshotHandle: Handle, programHandle: Option<Handle>,
                         program: Option<Code>, nextId: Id)
    returns (next: Option<ProgressObject>)
    modifies process
    ensures process.State() == Materialized(old(process.State()), capability, nextId, snapshotHandle, programHandle)
    ensures next.Some? <==> capability != "" && (programHandle.None? || programHandle.value in old(process.programs))
    ensures next.Some? ==>
      && fresh(next.value) && next.value.id == nextId
      && next.value.View() == Progress(Unclaimed, None, None, Some(snapshotHandle), programHandle, program)
  {
    if programHandle.Some? {
      var ok := process.RetainProgram(programHandle.value);
      if !ok {
        process.orphans := process.orphans + {snapshotHandle};
        return None;
      }
    }
    next := MakeProgress(process, capability, false, nextId, Unclaimed, None, Some(snapshotHandle), programHandle, program);
    if next.None? {
      process.orphans := process.orphans + {snapshotHandle};
      process.strays := process.strays + if programHandle.Some? then multiset{programHandle.value} else multiset{};
    }
  }

  /** The tables once a suspension was made into an object or not: an object holds its snapshot and one more
      reference to its program, and without one the snapshot, and the reference if it was taken, are held by
      nobody. */
  ghost function Materialized(env: Env, capability: string, id: Id, snapshotHandle: Handle, programHandle: Option<Handle>): Env {
    var orphaned := env.(orphans := env.orphans + {snapshotHandle});
    if programHandle.Some? && programHandle.value !in env.programs then orphaned
    else if capability == "" then
      if programHandle.None? then orphaned
      else
        var retained := ProgressModel.RetainProgram(orphaned, programHandle.value).value;
        retained.(strays := retained.strays + multiset{programHandle.value})
    else
      var retained := if programHandle.Some? then ProgressModel.RetainProgram(env, programHandle.value).value else env;
      Registering(retained, id, Some(snapshotHandle), programHandle)
  }

  // ------------------------------------------------------------------ loading

  /** What becomes of a state that was let in: a manifest for a capability the policy lacks ends the load
      after the claim; without a manifest the native side is asked for the call, which needs a name. */
  function LoadOutcome(admission: Admission, capabilities: seq<string>, result: LoadResult, inspected: string): LoadResult {
    if admission.call.None? then if result.Loaded? && inspected == "" then InspectionRejected else result
    else if admission.call.value.0 !in capabilities then ProgramRejected
    else if result.InspectionRejected? then Loaded
    else result
  }

  /** `Progress.load`; `None` when it throws.  `result` is what the native side makes of the bytes,
      and `inspected` the capability it shows for them. */
  method LoadProgress(process: Process, hashes: Hashes, text: Text, state: Dumped, authority: Option<Authority>,
                      result: LoadResult, inspected: string, nextId: Id, ghost w: World)
    returns (loaded: Option<ProgressObject>)
    requires w.env == process.State() && nextId == w.nextId && nextId !in w.loads
    modifies process
    ensures match Admit(hashes, text, state, authority, w.env.claims.Keys)
            case Failure(_) => loaded.None? && process.State() == w.env
            case Success(admission) =>
              var outcome := LoadOutcome(admission, authority.value.capabilities, result, inspected);
              var after := FinishLoadStep(BeginLoadStep(w, admission.snapshot, admission.program), nextId, outcome);
              && admission.snapshot !in w.env.claims
              && process.State() == after.env
              && (loaded.Some? <==> outcome.Loaded?)
              && (loaded.Some? ==> fresh(loaded.value) && Represents(loaded.value, nextId, after.objects))
    ensures loaded.Some? <==>
      && Admit(hashes, text, state, authority, w.env.claims.Keys).Success?
      && CallAllowed(text, state, authority.value.capabilities, inspected)
      && (result.Loaded? || (state.manifest.Present? && result.InspectionRejected?))
    ensures loaded.Some? ==>
      && state.snapshot == Present(loaded.value.View().identity.value)
      && (if loaded.value.View().program.Some? then state.program == Present(loaded.value.View().program.value) else state.program.Absent?)
  {
    AdmittedCall(hashes, text, state, authority, w.env.claims.Keys);
    hide ManifestCall, Admit, FailLoad, FinishLoadStep, BeginLoadStep, Inserted;
    var admitted := Admit(hashes, text, state, authority, process.claims.Keys);
    AdmittedIsFree(hashes, text, state, authority, process.claims.Keys);
    if admitted.Failure? {
      return None;
    }
    var admission := admitted.value;
    var claimed := process.ClaimSnapshot(admission.snapshot, nextId);
    var outcome := LoadOutcome(admission, authority.value.capabilities, result, inspected);
    LoadIsRegistered(w, nextId, PendingLoad(admission.snapshot, admission.program), outcome);
    var handles := LoadHandles(process, admission.snapshot, admission.program, outcome);
    if handles.None? {
      process.ReleaseClaim(admission.snapshot);
      return None;
    }
    var capability := if admission.call.Some? then admission.call.value.0 else inspected;
    loaded := MakeProgress(process, capability, admission.call.Some?, nextId, Claimed, Some(admission.snapshot),
                           Some(handles.value.1), handles.value.0, admission.program);
  }

  lemma AdmittedIsFree(hashes: Hashes, text: Text, state: Dumped, authority: Option<Authority>,
                       claims: set<seq<byte>>)
    ensures var admitted := Admit(hashes, text, state, authority, claims);
      admitted.Success? ==> authority.Some? && admitted.value.snapshot !in claims
  {
  }

  /** What a load that succeeds inserts, with the handles it gets. */
  ghost function Inserted(env: Env, load: PendingLoad): (Env, Option<Handle>, Handle) {
    var (withProgram, programHandle) :=
      if load.program.Some? then var (env, handle) := InsertProgram(env, load.program.value); (env, Some(handle))
      else (env, None);
    var (withSnapshot, snapshotHandle) := InsertSnapshot(withProgram, load.content);
    (withSnapshot, programHandle, snapshotHandle)
  }

  /** The two steps of a load taken at once. */
  lemma LoadIsRegistered(w: World, id: Id, load: PendingLoad, result: LoadResult)
    requires id == w.nextId && id !in w.loads && load.content !in w.env.claims
    ensures var claimed := w.env.(claims := w.env.claims[load.content := id]);
      var after := FinishLoadStep(BeginLoadStep(w, load.content, load.program), id, result);
      if result.Loaded? then
        var (env, programHandle, snapshotHandle) := Inserted(claimed, load);
        && after.env == Registering(env, id, Some(snapshotHandle), programHandle) && id in after.objects
        && after.objects[id] ==
           Progress(Claimed, Some(load.content), Some(load.content), Some(snapshotHandle), programHandle, load.program)
      else
        var env := FailLoad(claimed, load, result);
        after.env == env.(claims := env.claims - {load.content})
  {
    hide FailLoad;
  }

  /** The native half of a load: the program's handle, if it has one, and the snapshot's. */
  method LoadHandles(process: Process, snapshot: Content, program: Option<Code>, result: LoadResult)
    returns (handles: Option<(Option<Handle>, Handle)>)
    modifies process
    ensures !result.Loaded? ==>
      handles.None? && process.State() == FailLoad(old(process.State()), PendingLoad(snapshot, program), result)
    ensures result.Loaded? ==>
      handles.Some? &&
      (process.State(), handles.value.0, handles.value.1) == Inserted(old(process.State()), PendingLoad(snapshot, program))
  {
    if result.ProgramRejected? {
      return None;
    }
    var programHandle: Option<Handle> := None;
    if program.Some? {
      var handle := process.InsertProgram(program.value);
      programHandle := Some(handle);
    }
    if result.Loaded? {
      var snapshotHandle := process.InsertSnapshot(snapshot);
      return Some((programHandle, snapshotHandle));
    }
    if result.InspectionRejected? {
      var snapshotHandle := process.InsertSnapshot(snapshot);
      process.ReleaseSnapshotHandle(snapshotHandle);
    }
    if programHandle.Some? {
      process.ReleaseProgram(programHandle.value);
    }
    return None;
  }

  // ------------------------------------------------------------------ lib/runtime.ts

  class MustardObject {
    const id: Id
    var programHandle: Option<Handle>
    var program: Option<Code>

    ghost function View(): Mustard
      reads this
    {
      Mustard(programHandle, program)
    }

    constructor (process: Process, code: Code, id: Id)
      modifies process
      ensures this.id == id
      ensures var (env, handle) := HoldNewProgram(old(process.State()), id, code);
        process.State() == env && View() == Mustard(Some(handle), None)
    {
      this.id, this.program := id, None;
      this.programHandle := None;
      new;
      var handle := process.InsertProgram(code);
      programHandle := Some(handle);
      process.programHolders := process.programHolders[id := handle];
    }

    /** `Mustard.load`: the program is compiled into the tables only when it is needed. */
    constructor FromBytes(code: Code, id: Id)
      ensures this.id == id && View() == Mustard(None, Some(code))
    {
      this.id, programHandle, program := id, None, Some(code);
    }

    /** `loads` says whether the native side accepts the bytes; `None` when it throws. */
    method EnsureProgramHandle(process: Process, loads: bool, ghost w: World) returns (handle: Option<Handle>)
      requires id in w.mustards && w.mustards[id] == View() && w.env == process.State()
      modifies this, process
      ensures var after := EnsureMustard(w, id, loads);
        process.State() == after.env && View() == after.mustards[id] && handle == after.mustards[id].programHandle
    {
      if programHandle.Some? {
        return programHandle;
      }
      if program.None? || !loads {
        return None;
      }
      var loaded := process.InsertProgram(program.value);
      programHandle := Some(loaded);
      process.programHolders := process.programHolders[id := loaded];
      return programHandle;
    }

    method Start(process: Process, loads: bool, outcome: Outcome, nextId: Id, ghost w: World)
      returns (thrown: bool, next: Option<ProgressObject>)
      requires Inv(w) && id in w.mustards && w.mustards[id] == View() && w.env == process.State() && nextId == w.nextId
      modifies this, process
      ensures var after := StartStep(w, id, loads, outcome);
        && process.State() == after.env && id in after.mustards && View() == after.mustards[id]
        && (next.Some? ==> fresh(next.value) && Represents(next.value, nextId, after.objects))
        && (thrown <==> View().programHandle.None? || Throws(outcome))
        && (next.Some? <==> !thrown && Continues(outcome))
    {
      hide Inv, Settle;
      ghost var ready := EnsureMustard(w, id, loads);
      var handle := EnsureProgramHandle(process, loads, w);
      if handle.None? {
        return true, None;
      }
      EnsuredFacts(w, id, loads);
      next := FinishStart(process, outcome, handle.value, nextId, ready);
      SettleKeepsMustards(ready, outcome, handle);
      thrown := Throws(outcome);
    }
  }

  lemma EnsuredFacts(w: World, id: Id, loads: bool)
    requires Inv(w) && id in w.mustards
    ensures var ready := EnsureMustard(w, id, loads);
      && ready.nextId == w.nextId
      && (ready.mustards[id].programHandle.Some? ==> ready.mustards[id].programHandle.value in ready.env.programs)
  {
  }

  lemma SettleKeepsMustards(w: World, outcome: Outcome, handle: Option<Handle>)
    ensures Settle(w, outcome, handle, None).mustards == w.mustards
  {
  }

  method FinishStart(process: Process, outcome: Outcome, programHandle: Handle, nextId: Id, ghost w: World)
    returns (next: Option<ProgressObject>)
    requires process.State() == w.env && nextId == w.nextId && programHandle in w.env.programs
    modifies process
    ensures var after := Settle(w, outcome, Some(programHandle), None);
      && process.State() == after.env
      && (next.Some? <==> Continues(outcome))
      && (next.Some? ==> fresh(next.value) && Represents(next.value, nextId, after.objects))
  {
    next := None;
    if outcome.Suspends? || outcome.Unreadable? {
      var suspended := process.InsertSnapshot(outcome.content);
      if outcome.Unreadable? {
        process.orphans := process.orphans + {suspended};
      } else {
        next := MaterializeStep(process, outcome.capability, suspended, Some(programHandle), None, nextId);
      }
    }
  }

  method ValidateProgram(process: Process, code: Code)
    modifies process
    ensures var (inserted, handle) := InsertProgram(old(process.State()), code);
      process.State() == ReleaseProgram(inserted, handle)
  {
    var handle := process.InsertProgram(code);
    process.ReleaseProgram(handle);
  }
}

/** What the objects that starts, resumes and loads make are made of, and which program each belongs to. */
module ProgressPrograms {
  import opened Wrappers
  import opened ProgressModel
  import opened ProgressInvariant
  import opened ProgressTheorems

  // ------------------------------------------------------------------ new objects

  /** The object with that name is suspended on `content`, unclaimed and not dumped, and runs that program. */
  ghost predicate IsSuspended(w: World, id: Id, content: Content, programHandle: Option<Handle>) {
    && id in w.objects && w.objects[id].claimState.Unclaimed? && w.objects[id].identity.None? && w.objects[id].bytes.None?
    && w.objects[id].snapshotHandle.Some? && w.objects[id].snapshotHandle.value in w.env.snapshots
    && w.env.snapshots[w.objects[id].snapshotHandle.value] == content
    && w.objects[id].programHandle == programHandle
  }

  lemma SuspendMakes(w: World, content: Content, programHandle: Option<Handle>, program: Option<Code>)
    requires programHandle.Some? ==> programHandle.value in w.env.programs
    ensures var after := Suspend(w, content, programHandle, program);
      && IsSuspended(after, w.nextId, content, programHandle) && after.objects[w.nextId].program == program
      && after.objects.Keys == w.objects.Keys + {w.nextId} && after.nextId == w.nextId + 1
  {
  }

  /** A resume that suspends on a named capability makes exactly one object, which has what the native side
      suspended with and the program of the object that was resumed. */
  lemma ResumeMakesTheSuspension(w: World, id: Id, capability: string, content: Content)
    requires Reachable(w) && Enters(w, id) && capability != ""
    ensures var after := Apply(w, Resume(id, Suspends(capability, content)));
      && IsSuspended(after, w.nextId, content, w.objects[id].programHandle)
      && after.objects[w.nextId].program == w.objects[id].program
      && after.objects.Keys == w.objects.Keys + {w.nextId}
      && w.nextId !in w.objects && after.nextId == w.nextId + 1
  {
    hide Reachable, Inv, Suspend, Enter, ConsumeRefused;
    ReachableHasInv(w);
    ObjectFacts(w, id);
    ProgramIsThere(w, id);
    EnterKeepsTables(w, id);
    NamesAreNew(w);
    SuspendMakes(Enter(w, id), content, w.objects[id].programHandle, w.objects[id].program);
  }

  lemma NamesAreNew(w: World)
    requires Inv(w)
    ensures w.nextId !in w.objects && w.nextId !in w.loads
  {
    hide Counted, Handles, ObjectsOk, ClaimsOk;
  }

  lemma EnterKeepsTables(w: World, id: Id)
    requires Enters(w, id)
    ensures Enter(w, id).env.programs == w.env.programs && Enter(w, id).nextId == w.nextId
    ensures Enter(w, id).objects.Keys == w.objects.Keys
  {
  }

  lemma ProgramIsThere(w: World, id: Id)
    requires Inv(w) && id in w.objects
    ensures w.objects[id].programHandle.Some? ==> w.objects[id].programHandle.value in w.env.programs
  {
    hide Handles, Named, ClaimsOk;
    assert ObjectOk(w.env, id, w.objects[id]);
  }

  /** A start that suspends on a named capability makes exactly one object, which has what the native side
      suspended with and runs the program of its Mustard. */
  lemma StartMakesTheSuspension(w: World, id: Id, loads: bool, capability: string, content: Content)
    requires Reachable(w) && id in w.mustards && capability != ""
    requires w.mustards[id].programHandle.Some? || (w.mustards[id].program.Some? && loads)
    ensures var after := Apply(w, Start(id, loads, Suspends(capability, content)));
      && id in after.mustards && after.mustards[id].programHandle.Some?
      && IsSuspended(after, w.nextId, content, after.mustards[id].programHandle)
      && after.objects.Keys == w.objects.Keys + {w.nextId} && w.nextId !in w.objects
  {
    hide Reachable, Inv, Suspend, EnsureMustard;
    ReachableHasInv(w);
    NamesAreNew(w);
    EnsureKeepsInv(w, id, loads);
    EnsureGives(w, id, loads);
    var ready := EnsureMustard(w, id, loads);
    MustardProgramIsThere(ready, id);
    SuspendMakes(ready, content, ready.mustards[id].programHandle, None);
    SuspendKeepsMustards(ready, content, ready.mustards[id].programHandle);
  }

  lemma SuspendKeepsMustards(w: World, content: Content, programHandle: Option<Handle>)
    ensures Suspend(w, content, programHandle, None).mustards == w.mustards
  {
  }

  lemma EnsureGives(w: World, id: Id, loads: bool)
    requires id in w.mustards && (w.mustards[id].programHandle.Some? || (w.mustards[id].program.Some? && loads))
    ensures var ready := EnsureMustard(w, id, loads);
      && ready.objects == w.objects && ready.nextId == w.nextId && id in ready.mustards && ready.mustards[id].programHandle.Some?
  {
  }

  lemma MustardProgramIsThere(w: World, id: Id)
    requires Inv(w) && id in w.mustards
    ensures w.mustards[id].programHandle.Some? ==> w.mustards[id].programHandle.value in w.env.programs
  {
    hide Handles, Named, ClaimsOk;
  }

  /** A load that succeeds makes one object of exactly the snapshot and the program it was given, which holds the
      claim and is resumed natively with that snapshot. */
  lemma LoadMakesTheDump(w: World, content: Content, program: Option<Code>)
    requires Reachable(w) && content !in w.env.claims
    ensures var after := Apply(Apply(w, BeginLoad(content, program)), FinishLoad(w.nextId, Loaded));
      && w.nextId !in w.objects && after.objects.Keys == w.objects.Keys + {w.nextId}
      && var p := after.objects[w.nextId];
      && p.claimState.Claimed? && p.identity == p.bytes == Some(content) && p.program == program
      && p.snapshotHandle.Some? && p.snapshotHandle.value in after.env.snapshots && after.env.snapshots[p.snapshotHandle.value] == content
      && (program.Some? <==> p.programHandle.Some?)
      && (program.Some? ==> p.programHandle.value in after.env.programs && after.env.programs[p.programHandle.value].code == program.value)
      && Find(after.env.claims, content) == Some(w.nextId) && Enters(after, w.nextId)
  {
    hide Reachable, Inv;
    ReachableHasInv(w);
    NamesAreNew(w);
  }

  function Find<V>(m: map<Content, V>, key: Content): Option<V> {
    if key in m then Some(m[key]) else None
  }

  // ------------------------------------------------------------------ programs

  /** The program bytes of an object are those of the program its handle stands for. */
  ghost predicate CodeOk(w: World) {
    forall id :: id in w.objects && w.objects[id].program.Some? ==>
      && w.objects[id].programHandle.Some? && w.objects[id].programHandle.value in w.env.programs
      && w.env.programs[w.objects[id].programHandle.value].code == w.objects[id].program.value
  }

  ghost predicate SameCode(before: Env, after: Env) {
    forall h :: h in before.programs && h in after.programs ==> after.programs[h].code == before.programs[h].code
  }

  /** No event changes what a handle stands for. */
  lemma ProgramsKeepCode(w: World, event: Event)
    requires Inv(w)
    ensures SameCode(w.env, Apply(w, event).env)
  {
    hide Inv, StartStep, ResumeStep, FinishLoadStep, FinalizeProgramStep;
    HandlesAreNew(w);
    match event
    case Start(id, loads, outcome) => StartKeepsCode(w, id, loads, outcome);
    case Resume(id, outcome) => ResumeKeepsCode(w, id, outcome);
    case FinishLoad(id, result) => LoadKeepsCode(w, id, result);
    case FinalizeProgram(id) => FinalizeKeepsCode(w, id);
    case _ =>
  }

  lemma HandlesAreNew(w: World)
    requires Inv(w)
    ensures w.env.nextHandle !in w.env.programs
  {
    hide Handles, ObjectsOk, Named, ClaimsOk;
  }

  lemma SettleKeepsCode(w: World, outcome: Outcome, programHandle: Option<Handle>, program: Option<Code>)
    ensures SameCode(w.env, Settle(w, outcome, programHandle, program).env)
    ensures w.env.programs.Keys == Settle(w, outcome, programHandle, program).env.programs.Keys
  {
    hide Suspend, SuspendUnnamed;
    var content := if outcome.Suspends? then outcome.content else [];
    NamedKeepsCode(w, content, programHandle, program);
    UnnamedKeepsCode(w, content, programHandle);
  }

  lemma NamedKeepsCode(w: World, content: Content, programHandle: Option<Handle>, program: Option<Code>)
    ensures SameCode(w.env, Suspend(w, content, programHandle, program).env)
    ensures w.env.programs.Keys == Suspend(w, content, programHandle, program).env.programs.Keys
  {
  }

  lemma UnnamedKeepsCode(w: World, content: Content, programHandle: Option<Handle>)
    ensures SameCode(w.env, SuspendUnnamed(w, content, programHandle).env)
    ensures w.env.programs.Keys == SuspendUnnamed(w, content, programHandle).env.programs.Keys
  {
  }

  lemma StartKeepsCode(w: World, id: Id, loads: bool, outcome: Outcome)
    requires Inv(w)
    ensures SameCode(w.env, StartStep(w, id, loads, outcome).env)
  {
    hide Inv, Settle, EnsureMustard;
    if id in w.mustards {
      var ready := EnsureMustard(w, id, loads);
      EnsureKeepsCode(w, id, loads);
      SettleKeepsCode(ready, outcome, ready.mustards[id].programHandle, None);
    }
  }

  lemma EnsureKeepsCode(w: World, id: Id, loads: bool)
    requires Inv(w) && id in w.mustards
    ensures var ready := EnsureMustard(w, id, loads);
      SameCode(w.env, ready.env) && w.env.programs.Keys <= ready.env.programs.Keys && ready.objects == w.objects && id in ready.mustards
  {
    hide Inv;
    HandlesAreNew(w);
  }

  lemma ResumeKeepsCode(w: World, id: Id, outcome: Outcome)
    ensures SameCode(w.env, ResumeStep(w, id, outcome).env)
  {
    hide Settle, Enter, ConsumeRefused;
    if Enters(w, id) {
      EnterKeepsTables(w, id);
      SettleKeepsCode(Enter(w, id), outcome, w.objects[id].programHandle, w.objects[id].program);
    }
  }

  lemma LoadKeepsCode(w: World, id: Id, result: LoadResult)
    requires Inv(w)
    ensures SameCode(w.env, FinishLoadStep(w, id, result).env)
  {
    hide FailLoad, Inv;
    HandlesAreNew(w);
    if id in w.loads {
      InvParts(w);
      FailedLoadRestoresTables(w.env, w.loads[id], result);
    }
  }

  lemma FinalizeKeepsCode(w: World, id: Id)
    ensures SameCode(w.env, FinalizeProgramStep(w, id).env)
  {
  }

  /** An object that an event leaves or makes has no program bytes, or has them from an object that was there,
      or has them from the table. */
  ghost predicate Sourced(w: World, after: World, id: Id)
    requires id in after.objects
  {
    var q := after.objects[id];
    || q.program.None?
    || (exists source :: source in w.objects && q.programHandle == w.objects[source].programHandle && q.program == w.objects[source].program)
    || (q.programHandle.Some? && q.programHandle.value in after.env.programs
        && after.env.programs[q.programHandle.value].code == q.program.value)
  }

  lemma SourcedKeepCode(w: World, after: World)
    requires Inv(w) && Inv(after) && CodeOk(w) && SameCode(w.env, after.env)
    requires forall id :: id in after.objects ==> Sourced(w, after, id)
    ensures CodeOk(after)
  {
    hide Inv;
    forall id | id in after.objects && after.objects[id].program.Some?
      ensures && after.objects[id].programHandle.Some? && after.objects[id].programHandle.value in after.env.programs
              && after.env.programs[after.objects[id].programHandle.value].code == after.objects[id].program.value
    {
      assert Sourced(w, after, id);
      ProgramIsThere(after, id);
    }
  }

  lemma SettleSources(w: World, outcome: Outcome, programHandle: Option<Handle>, program: Option<Code>, id: Id)
    requires id in Settle(w, outcome, programHandle, program).objects
    ensures var after := Settle(w, outcome, programHandle, program);
      || (id in w.objects && after.objects[id] == w.objects[id])
      || (after.objects[id].programHandle == programHandle && after.objects[id].program == program)
  {
    hide SuspendUnnamed, Suspend;
    if outcome.Suspends? {
      UnnamedKeepsOthers(w, outcome.content, programHandle);
      if outcome.capability != "" {
        SuspendSources(w, outcome.content, programHandle, program, id);
      }
    }
  }

  lemma SuspendSources(w: World, content: Content, programHandle: Option<Handle>, program: Option<Code>, id: Id)
    requires id in Suspend(w, content, programHandle, program).objects
    ensures var after := Suspend(w, content, programHandle, program);
      || (id in w.objects && after.objects[id] == w.objects[id])
      || (after.objects[id].programHandle == programHandle && after.objects[id].program == program)
  {
  }

  lemma StartSources(w: World, event: Event, id: Id)
    requires Inv(w) && event.Start? && id in Apply(w, event).objects
    ensures Sourced(w, Apply(w, event), id)
  {
    hide Inv, Settle, EnsureMustard;
    var Start(mustard, loads, outcome) := event;
    if mustard in w.mustards {
      var ready := EnsureMustard(w, mustard, loads);
      EnsureKeepsCode(w, mustard, loads);
      if ready.mustards[mustard].programHandle.Some? {
        SettleSources(ready, outcome, ready.mustards[mustard].programHandle, None, id);
      }
    }
  }

  lemma ResumeSources(w: World, event: Event, id: Id)
    requires event.Resume? && id in Apply(w, event).objects
    ensures Sourced(w, Apply(w, event), id)
  {
    hide Settle, ConsumeRefused;
    var Resume(resumed, outcome) := event;
    if Enters(w, resumed) {
      SettleSources(Enter(w, resumed), outcome, w.objects[resumed].programHandle, w.objects[resumed].program, id);
    }
  }

  lemma DumpSources(w: World, event: Event, id: Id)
    requires (event.Dump? || event.ReadSnapshot?) && id in Apply(w, event).objects
    ensures Sourced(w, Apply(w, event), id)
  {
    match event
    case Dump(target) => BytesKeepProgram(w, target);
    case ReadSnapshot(target) => BytesKeepProgram(w, target);
    case _ =>
  }

  lemma BytesKeepProgram(w: World, id: Id)
    ensures id in w.objects && EnsureBytes(w.env, w.objects[id]).Some? ==>
      var p := EnsureBytes(w.env, w.objects[id]).value;
      p.program == w.objects[id].program && p.programHandle == w.objects[id].programHandle
  {
  }

  lemma LoadSources(w: World, event: Event, id: Id)
    requires Inv(w) && event.FinishLoad? && id in Apply(w, event).objects
    ensures Sourced(w, Apply(w, event), id)
  {
    hide FailLoad, Inv;
  }

  lemma EventSources(w: World, event: Event, id: Id)
    requires Inv(w) && id in Apply(w, event).objects
    ensures Sourced(w, Apply(w, event), id)
  {
    hide Inv, StartStep, ResumeStep, DumpStep, ReadStep, FinishLoadStep, FinalizeProgramStep, FinalizeSnapshotStep, Remember;
    match event
    case Start(_, _, _) => StartSources(w, event, id);
    case Resume(_, _) => ResumeSources(w, event, id);
    case ReadSnapshot(_) => DumpSources(w, event, id);
    case Dump(_) => DumpSources(w, event, id);
    case FinishLoad(_, _) => LoadSources(w, event, id);
    case FinalizeProgram(owner) => FinalizersKeepObjects(w, owner);
    case FinalizeSnapshot(owner) => FinalizersKeepObjects(w, owner);
    case _ =>
  }

  lemma FinalizersKeepObjects(w: World, owner: Id)
    ensures FinalizeProgramStep(w, owner).objects == w.objects && FinalizeSnapshotStep(w, owner).objects == w.objects
  {
  }

  lemma {:induction false} RunKeepsCode(events: seq<Event>)
    ensures CodeOk(Run(events))
    decreases |events|
  {
    hide Apply;
    if events != [] {
      hide CodeOk;
      var before, last := Run(events[..|events| - 1]), events[|events| - 1];
      RunKeepsCode(events[..|events| - 1]);
      RunKeepsInv(events[..|events| - 1]);
      ApplyKeepsInv(before, last);
      ProgramsKeepCode(before, last);
      forall id | id in Apply(before, last).objects ensures Sourced(before, Apply(before, last), id) {
        EventSources(before, last, id);
      }
      SourcedKeepCode(before, Apply(before, last));
    }
  }

  /** Over every run, what a dump of an object shows is the code of the very program its snapshot runs with,
      and it shows one exactly when the object has a program of its own; its snapshot is the one that native
      resume would enter. */
  lemma DumpShowsItsProgram(events: seq<Event>, id: Id)
    requires id in Run(events).objects && EnsureBytes(Run(events).env, Run(events).objects[id]).Some?
    ensures var before, after := Run(events), Apply(Run(events), Dump(id));
      && id in after.objects
      && var p := after.objects[id];
      && (p.program.Some? <==> p.programHandle.Some?)
      && (p.program.Some? ==>
            p.programHandle.value in after.env.programs && after.env.programs[p.programHandle.value].code == p.program.value)
      && p.bytes.Some? && p.identity == p.bytes
      && (p.snapshotHandle.Some? ==>
            p.snapshotHandle.value in after.env.snapshots && after.env.snapshots[p.snapshotHandle.value] == p.bytes.value)
      && after.env == before.env
  {
    hide Run, Inv;
    RunKeepsCode(events);
    RunKeepsInv(events);
    ProgramIsThere(Run(events), id);
    ObjectOfInv(Run(events), id);
  }

  lemma ObjectOfInv(w: World, id: Id)
    requires Inv(w) && id in w.objects
    ensures ObjectOk(w.env, id, w.objects[id])
    ensures w.objects[id].snapshotHandle.Some? ==> w.objects[id].snapshotHandle.value in w.env.snapshots
  {
    assert ObjectOk(w.env, id, w.objects[id]);
  }
}

/** The invariant of the process in `ProgressModel`, and that every event keeps it. */
module ProgressInvariant {
  import opened Wrappers
  import opened ProgressModel

  function Holders(holders: map<Id, Handle>, handle: Handle): set<Id> {
    set id | id in holders && holders[id] == handle
  }

  /** Reference counts are numbers of owners and of stray references, and what they refer to is there. */
  ghost predicate Counted(env: Env) {
    && (forall h :: h in env.programs ==>
          h < env.nextHandle && 0 < env.programs[h].refCount == |Holders(env.programHolders, h)| + env.strays[h])
    && (forall id :: id in env.programHolders ==> env.programHolders[id] in env.programs)
    && (forall h :: h in env.strays ==> h in env.programs)
  }

  /** Snapshot handles have one owner each or are orphans, and one that was used for native resume is
      gone. */
  ghost predicate Handles(env: Env) {
    && (forall h :: h in env.snapshots ==> h < env.nextHandle && (h in env.orphans || Owned(env.snapshotHolders, h)))
    && env.orphans <= env.snapshots.Keys
    && (forall id :: id in env.snapshotHolders ==> env.snapshotHolders[id] !in env.orphans)
    && (forall id :: id in env.snapshotHolders ==> env.snapshotHolders[id] in env.snapshots)
    && (forall a, b :: a in env.snapshotHolders && b in env.snapshotHolders && a != b
          ==> env.snapshotHolders[a] != env.snapshotHolders[b])
    && (forall i :: 0 <= i < |env.entered| ==>
          env.entered[i].handle < env.nextHandle && env.entered[i].handle !in env.snapshots)
    && (forall i, k :: 0 <= i < k < |env.entered| ==> env.entered[i].handle != env.entered[k].handle)
  }

  ghost predicate Owned(holders: map<Id, Handle>, handle: Handle) {
    exists id :: id in holders && holders[id] == handle
  }

  /** What an object's fields say about the tables. */
  ghost predicate ObjectOk(env: Env, id: Id, p: Progress) {
    && Registered(env.programHolders, id, p.programHandle)
    && Registered(env.snapshotHolders, id, p.snapshotHandle)
    && (p.program.Some? ==> p.programHandle.Some?)
    && (p.claimState.Consumed? <==> p.snapshotHandle.None?)
    && p.identity == p.bytes
    && (p.snapshotHandle.Some? && p.identity.Some? ==>
          p.snapshotHandle.value in env.snapshots && p.identity.value == env.snapshots[p.snapshotHandle.value])
    && (p.claimState.Claimed? ==>
          p.identity.Some? && p.identity.value in env.claims && env.claims[p.identity.value] == id)
  }

  /** A finaliser is registered exactly for an owner that has a handle. */
  predicate Registered(holders: map<Id, Handle>, id: Id, handle: Option<Handle>) {
    if handle.Some? then id in holders && holders[id] == handle.value else id !in holders
  }

  ghost predicate ObjectsOk(w: World) {
    && (forall id :: id in w.objects ==> ObjectOk(w.env, id, w.objects[id]))
    && (forall id :: id in w.mustards ==> Registered(w.env.programHolders, id, w.mustards[id].programHandle))
  }

  /** Names are never shared or reused. */
  ghost predicate Named(w: World) {
    && (forall id :: id in w.objects ==> id < w.nextId && id !in w.mustards && id !in w.loads)
    && (forall id :: id in w.mustards ==> id < w.nextId && id !in w.loads && id !in w.env.snapshotHolders)
    && (forall id :: id in w.loads ==> id < w.nextId && id !in w.env.programHolders && id !in w.env.snapshotHolders)
    && (forall id :: id in w.env.programHolders ==> id < w.nextId)
    && (forall id :: id in w.env.snapshotHolders ==> id < w.nextId)
    && (forall c :: c in w.env.claims ==> w.env.claims[c] < w.nextId)
  }

  /** Each claim has at most one holder: a pending load, a loaded object or one native resume. */
  ghost predicate ClaimsOk(w: World) {
    && (forall id :: id in w.loads ==> w.loads[id].content in w.env.claims && w.env.claims[w.loads[id].content] == id)
    && (forall i :: 0 <= i < |w.env.entered| ==> EntryOk(w, w.env.entered[i]))
    && (forall i, k :: 0 <= i < k < |w.env.entered| ==> w.env.entered[i].owner != w.env.entered[k].owner)
  }

  ghost predicate EntryOk(w: World, entry: Entered) {
    && entry.owner < w.nextId && entry.owner !in w.loads
    && (entry.owner in w.objects ==> w.objects[entry.owner].claimState.Consumed?)
    && (entry.known ==> entry.content in w.env.claims && w.env.claims[entry.content] == entry.owner)
  }

  ghost predicate Inv(w: World) {
    Counted(w.env) && Handles(w.env) && ObjectsOk(w) && Named(w) && ClaimsOk(w)
  }

  // ------------------------------------------------------------------ counting owners

  lemma HoldersGain(holders: map<Id, Handle>, id: Id, handle: Handle)
    requires id !in holders
    ensures |Holders(holders[id := handle], handle)| == |Holders(holders, handle)| + 1
    ensures forall h :: h != handle ==> Holders(holders[id := handle], h) == Holders(holders, h)
  {
    assert Holders(holders[id := handle], handle) == Holders(holders, handle) + {id};
  }

  lemma HoldersLose(holders: map<Id, Handle>, id: Id)
    requires id in holders
    ensures |Holders(holders - {id}, holders[id])| == |Holders(holders, holders[id])| - 1
    ensures forall h :: h != holders[id] ==> Holders(holders - {id}, h) == Holders(holders, h)
  {
    assert Holders(holders, holders[id]) == Holders(holders - {id}, holders[id]) + {id};
  }

  lemma NoHolders(env: Env, handle: Handle)
    requires Counted(env) && handle !in env.programs
    ensures Holders(env.programHolders, handle) == {}
  {
  }

  lemma HoldNewIsCounted(env: Env, id: Id, code: Code)
    requires Counted(env) && id !in env.programHolders
    ensures Counted(HoldNewProgram(env, id, code).0)
  {
    HoldersGain(env.programHolders, id, env.nextHandle);
    NoHolders(env, env.nextHandle);
  }

  lemma RetainIsCounted(env: Env, id: Id, handle: Handle)
    requires Counted(env) && id !in env.programHolders && handle in env.programs
    ensures var retained := RetainProgram(env, handle).value;
      Counted(retained.(programHolders := retained.programHolders[id := handle]))
  {
    HoldersGain(env.programHolders, id, handle);
  }

  lemma ReleaseIsCounted(env: Env, id: Id)
    requires Counted(env) && id in env.programHolders
    ensures var released := ReleaseProgram(env, env.programHolders[id]);
      Counted(released.(programHolders := released.programHolders - {id}))
  {
    hide Holders;
    var handle := env.programHolders[id];
    HoldersLose(env.programHolders, id);
    var rest := env.programHolders - {id};
    NobodyHolds(rest, handle);
    assert env.strays[handle] == 0 <==> handle !in env.strays;
  }

  lemma NobodyHolds(holders: map<Id, Handle>, handle: Handle)
    ensures |Holders(holders, handle)| == 0 ==> forall id :: id in holders ==> holders[id] != handle
  {
    if id :| id in holders && holders[id] == handle {
      assert id in Holders(holders, handle);
    }
  }

  lemma ReleaseOfNewIsNothing(env: Env, code: Code)
    requires Counted(env)
    ensures var (inserted, handle) := InsertProgram(env, code);
      ReleaseProgram(inserted, handle) == env.(nextHandle := env.nextHandle + 1)
  {
    assert env.programs[env.nextHandle := ProgramEntry(code, 1)] - {env.nextHandle} == env.programs;
  }

  lemma SnapshotsAreNotCounted(before: Env, after: Env)
    requires Counted(before)
    requires after.programs == before.programs && after.programHolders == before.programHolders && after.strays == before.strays
    requires before.nextHandle <= after.nextHandle
    ensures Counted(after)
  {
  }

  lemma ProgramsHaveNoSnapshots(before: Env, after: Env)
    requires Handles(before)
    requires after.snapshots == before.snapshots && after.snapshotHolders == before.snapshotHolders && after.entered == before.entered
    requires after.orphans == before.orphans
    requires before.nextHandle <= after.nextHandle
    ensures Handles(after)
  {
  }

  lemma HoldersHavePrograms(env: Env, id: Id)
    requires Counted(env) && id in env.programHolders
    ensures env.programHolders[id] in env.programs
  {
  }

  // ------------------------------------------------------------------ the smallest changes

  /** A name that no object, load or owner has. */
  ghost predicate Unused(w: World, id: Id) {
    id < w.nextId && id !in w.objects && id !in w.mustards && id !in w.loads
  }

  lemma TakeName(w: World)
    requires Inv(w)
    ensures Inv(w.(nextId := w.nextId + 1)) && Unused(w.(nextId := w.nextId + 1), w.nextId)
    ensures w.nextId !in w.env.programHolders && w.nextId !in w.env.snapshotHolders
    ensures forall i :: 0 <= i < |w.env.entered| ==> w.env.entered[i].owner != w.nextId
  {
    hide Counted, Handles, ObjectOk;
  }

  /** Reaching further for handles harms nothing. */
  lemma LaterHandles(w: World, next: Handle)
    requires Inv(w) && w.env.nextHandle <= next
    ensures Inv(w.(env := w.env.(nextHandle := next)))
  {
    hide Counted, Handles;
    SnapshotsAreNotCounted(w.env, w.env.(nextHandle := next));
    ProgramsHaveNoSnapshots(w.env, w.env.(nextHandle := next));
  }

  /** A change of tables that leaves claims and the log alone. */
  lemma ChangeTables(w: World, env: Env)
    requires Inv(w) && env.claims == w.env.claims && env.entered == w.env.entered
    requires Counted(env) && Handles(env) && ObjectsOk(w.(env := env))
    requires forall id :: id in env.programHolders ==> id in w.env.programHolders || Unused(w, id)
    requires forall id :: id in env.snapshotHolders ==> id in w.env.snapshotHolders || Unused(w, id)
    ensures Inv(w.(env := env))
  {
    hide Counted, Handles, ObjectsOk;
  }

  /** Owners other than `id` see nothing of a change that only concerns `id`. */
  ghost predicate SameForOthers(before: map<Id, Handle>, after: map<Id, Handle>, id: Id) {
    forall other :: other != id ==> (other in after <==> other in before) && (other in after ==> after[other] == before[other])
  }

  lemma OthersStayOk(w: World, env: Env, id: Id)
    requires ObjectsOk(w) && id !in w.objects && id !in w.mustards && env.claims == w.env.claims
    requires SameForOthers(w.env.programHolders, env.programHolders, id)
    requires SameForOthers(w.env.snapshotHolders, env.snapshotHolders, id)
    requires forall other :: other in w.env.snapshotHolders && other != id ==>
      w.env.snapshotHolders[other] in w.env.snapshots ==>
        && w.env.snapshotHolders[other] in env.snapshots
        && env.snapshots[w.env.snapshotHolders[other]] == w.env.snapshots[w.env.snapshotHolders[other]]
    ensures ObjectsOk(w.(env := env))
  {
    forall other | other in w.objects ensures ObjectOk(env, other, w.objects[other]) {
      assert ObjectOk(w.env, other, w.objects[other]);
    }
  }

  lemma GainProgramHolder(w: World, id: Id, env: Env)
    requires Inv(w) && Unused(w, id) && Counted(env)
    requires env == w.env.(programs := env.programs, programHolders := env.programHolders, nextHandle := env.nextHandle)
    requires w.env.nextHandle <= env.nextHandle
    requires SameForOthers(w.env.programHolders, env.programHolders, id)
    ensures Inv(w.(env := env))
  {
    hide Counted, Handles, ObjectsOk, Named, ClaimsOk;
    ProgramsHaveNoSnapshots(w.env, env);
    OthersStayOk(w, env, id);
    ChangeTables(w, env);
  }

  lemma NewSnapshotHandle(env: Env, id: Id, content: Content)
    requires Handles(env) && id !in env.snapshotHolders
    ensures var after := HoldNewSnapshot(env, id, content).0;
      Handles(after) && forall other :: other in env.snapshotHolders ==>
        env.snapshotHolders[other] in after.snapshots
        && after.snapshots[env.snapshotHolders[other]] == env.snapshots[env.snapshotHolders[other]]
  {
    var after := HoldNewSnapshot(env, id, content).0;
    assert after.snapshotHolders[id] == env.nextHandle;
    forall h | h in env.snapshots && Owned(env.snapshotHolders, h) ensures Owned(after.snapshotHolders, h) {
      var owner :| owner in env.snapshotHolders && env.snapshotHolders[owner] == h;
      assert after.snapshotHolders[owner] == h;
    }
  }

  lemma GainSnapshotHolder(w: World, id: Id, content: Content)
    requires Inv(w) && Unused(w, id) && id !in w.env.snapshotHolders
    ensures Inv(w.(env := HoldNewSnapshot(w.env, id, content).0))
  {
    hide Counted, Handles, ObjectsOk, Named, ClaimsOk;
    var env := HoldNewSnapshot(w.env, id, content).0;
    NewSnapshotHandle(w.env, id, content);
    SnapshotsAreNotCounted(w.env, env);
    OthersStayOk(w, env, id);
    ChangeTables(w, env);
  }

  lemma GainObject(w: World, id: Id, p: Progress)
    requires Inv(w) && Unused(w, id) && ObjectOk(w.env, id, p)
    requires p.claimState.Consumed? || forall i :: 0 <= i < |w.env.entered| ==> w.env.entered[i].owner != id
    ensures Inv(w.(objects := w.objects[id := p]))
  {
    hide Counted, Handles, ObjectOk;
  }

  lemma GainMustard(w: World, id: Id, mustard: Mustard)
    requires Inv(w) && Unused(w, id) && id !in w.env.snapshotHolders
    requires Registered(w.env.programHolders, id, mustard.programHandle)
    ensures Inv(w.(mustards := w.mustards[id := mustard]))
  {
    hide Counted, Handles, ObjectOk, Registered;
  }

  lemma LoseObject(w: World, id: Id)
    requires Inv(w)
    ensures Inv(w.(objects := w.objects - {id}))
  {
    hide Counted, Handles, ObjectOk, Registered;
  }

  lemma LoseMustard(w: World, id: Id)
    requires Inv(w)
    ensures Inv(w.(mustards := w.mustards - {id}))
  {
    hide Counted, Handles, ObjectOk, Registered, ClaimsOk;
    assert ClaimsOk(w.(mustards := w.mustards - {id})) by { ClaimsIgnoreMustards(w, w.mustards - {id}); }
  }

  lemma ClaimsIgnoreMustards(w: World, mustards: map<Id, Mustard>)
    requires ClaimsOk(w)
    ensures ClaimsOk(w.(mustards := mustards))
  {
  }

  lemma LoseLoad(w: World, id: Id)
    requires Inv(w)
    ensures Inv(w.(loads := w.loads - {id}))
  {
    hide Counted, Handles, ObjectOk, Registered;
  }

  lemma GainClaim(w: World, content: Content, id: Id)
    requires Inv(w) && id < w.nextId && content !in w.env.claims
    ensures Inv(w.(env := w.env.(claims := w.env.claims[content := id])))
  {
    hide Counted, Handles, Registered;
    var env := w.env.(claims := w.env.claims[content := id]);
    SnapshotsAreNotCounted(w.env, env);
    ProgramsHaveNoSnapshots(w.env, env);
    assert ObjectsOk(w.(env := env)) by {
      hide ClaimsOk, Named;
      forall other | other in w.objects ensures ObjectOk(env, other, w.objects[other]) {
        assert ObjectOk(w.env, other, w.objects[other]);
      }
    }
  }

  lemma GainEntry(w: World, entry: Entered)
    requires Inv(w) && Unused(w, entry.owner)
    requires entry.handle < w.env.nextHandle && entry.handle !in w.env.snapshots
    requires forall i :: 0 <= i < |w.env.entered| ==> w.env.entered[i].handle != entry.handle && w.env.entered[i].owner != entry.owner
    requires entry.known ==> entry.content in w.env.claims && w.env.claims[entry.content] == entry.owner
    ensures Inv(w.(env := w.env.(entered := w.env.entered + [entry])))
  {
    hide Counted, Handles, ObjectOk;
    var after := w.(env := w.env.(entered := w.env.entered + [entry]));
    SnapshotsAreNotCounted(w.env, after.env);
    LogKeepsHandles(w.env, entry);
    LogKeepsObjects(w, entry);
    assert forall i :: 0 <= i < |w.env.entered| ==> EntryOk(after, w.env.entered[i]) by {
      assert forall i :: 0 <= i < |w.env.entered| ==> EntryOk(w, w.env.entered[i]);
    }
    assert EntryOk(after, entry);
  }

  lemma LogKeepsHandles(env: Env, entry: Entered)
    requires Handles(env) && entry.handle < env.nextHandle && entry.handle !in env.snapshots
    requires forall i :: 0 <= i < |env.entered| ==> env.entered[i].handle != entry.handle
    ensures Handles(env.(entered := env.entered + [entry]))
  {
  }

  lemma LogKeepsObjects(w: World, entry: Entered)
    requires ObjectsOk(w)
    ensures ObjectsOk(w.(env := w.env.(entered := w.env.entered + [entry])))
  {
    forall id | id in w.objects ensures ObjectOk(w.env.(entered := w.env.entered + [entry]), id, w.objects[id]) {
      assert ObjectOk(w.env, id, w.objects[id]);
    }
  }

  // ------------------------------------------------------------------ each step keeps the invariant

  lemma CompileKeepsInv(w: World, code: Code)
    requires Inv(w)
    ensures Inv(Act(w, Compile(code)))
  {
    hide Inv, Counted;
    var id, named := w.nextId, w.(nextId := w.nextId + 1);
    TakeName(w);
    InvParts(w);
    HoldNewIsCounted(w.env, id, code);
    var (env, handle) := HoldNewProgram(w.env, id, code);
    GainProgramHolder(named, id, env);
    GainMustard(named.(env := env), id, Mustard(Some(handle), None));
  }

  lemma InvParts(w: World)
    requires Inv(w)
    ensures Counted(w.env) && Handles(w.env) && ObjectsOk(w) && Named(w) && ClaimsOk(w)
  {
  }

  lemma EnsureKeepsInv(w: World, id: Id, loads: bool)
    requires Inv(w) && id in w.mustards
    ensures Inv(EnsureMustard(w, id, loads))
  {
    hide Inv, Counted, Handles, ClaimsOk, ObjectOk;
    InvParts(w);
    var mustard := w.mustards[id];
    if mustard.programHandle.None? && mustard.program.Some? {
      HoldNewIsCounted(w.env, id, mustard.program.value);
      var without := w.(mustards := w.mustards - {id});
      LoseMustard(w, id);
      var (env, handle) := HoldNewProgram(w.env, id, mustard.program.value);
      GainProgramHolder(without, id, env);
      GainMustard(without.(env := env), id, mustard.(programHandle := Some(handle)));
      assert (w.mustards - {id})[id := mustard.(programHandle := Some(handle))] == w.mustards[id := mustard.(programHandle := Some(handle))];
    }
  }

  lemma SuspendKeepsInv(w: World, content: Content, programHandle: Option<Handle>, program: Option<Code>)
    requires Inv(w)
    requires programHandle.Some? ==> programHandle.value in w.env.programs
    requires program.Some? ==> programHandle.Some?
    ensures Inv(Suspend(w, content, programHandle, program))
  {
    hide Inv, Counted, Handles, ClaimsOk, ObjectsOk, Named;
    TakeName(w);
    InvParts(w);
    var id, named := w.nextId, w.(nextId := w.nextId + 1);
    GainSnapshotHolder(named, id, content);
    var owning := named.(env := HoldNewSnapshot(w.env, id, content).0);
    InvParts(owning);
    var after := Suspend(w, content, programHandle, program);
    if programHandle.Some? {
      RetainIsCounted(owning.env, id, programHandle.value);
      GainProgramHolder(owning, id, after.env);
    }
    GainObject(owning.(env := after.env), id, after.objects[id]);
  }

  lemma SettleKeepsInv(w: World, outcome: Outcome, programHandle: Option<Handle>, program: Option<Code>)
    requires Inv(w)
    requires programHandle.Some? ==> programHandle.value in w.env.programs
    requires program.Some? ==> programHandle.Some?
    ensures Inv(Settle(w, outcome, programHandle, program))
  {
    hide Inv;
    match outcome
    case Suspends(capability, content) =>
      if capability == "" {
        UnnamedKeepsInv(w, content, programHandle);
      } else {
        SuspendKeepsInv(w, content, programHandle, program);
      }
    case Unreadable(content) => OrphanKeepsInv(w, content);
    case _ =>
  }

  /** ... and touches neither the log nor the objects there are. */
  lemma SettleKeepsOthers(w: World, outcome: Outcome, programHandle: Option<Handle>, program: Option<Code>, id: Id)
    requires id in w.objects && id < w.nextId
    ensures var after := Settle(w, outcome, programHandle, program);
      after.env.entered == w.env.entered && id in after.objects && after.objects[id] == w.objects[id]
  {
    hide SuspendUnnamed, Suspend;
    UnnamedKeepsOthers(w, if outcome.Suspends? then outcome.content else [], programHandle);
    SuspendKeepsOthers(w, if outcome.Suspends? then outcome.content else [], programHandle, program, id);
  }

  lemma UnnamedKeepsOthers(w: World, content: Content, programHandle: Option<Handle>)
    ensures var after := SuspendUnnamed(w, content, programHandle);
      after.env.entered == w.env.entered && after.objects == w.objects && after.env.claims == w.env.claims
  {
  }

  lemma SuspendKeepsOthers(w: World, content: Content, programHandle: Option<Handle>, program: Option<Code>, id: Id)
    requires id in w.objects && id < w.nextId
    ensures var after := Suspend(w, content, programHandle, program);
      after.env.entered == w.env.entered && id in after.objects && after.objects[id] == w.objects[id]
  {
  }

  lemma OrphanKeepsHandles(env: Env, content: Content)
    requires Handles(env)
    ensures Handles(Orphan(env, content))
    ensures forall h :: h in env.snapshots ==> h in Orphan(env, content).snapshots && Orphan(env, content).snapshots[h] == env.snapshots[h]
  {
    var after := Orphan(env, content);
    forall h | h in after.snapshots ensures h < after.nextHandle && (h in after.orphans || Owned(after.snapshotHolders, h)) {
    }
  }

  lemma OrphanKeepsInv(w: World, content: Content)
    requires Inv(w)
    ensures Inv(w.(env := Orphan(w.env, content)))
  {
    hide Counted, Handles, Owned;
    SnapshotsAreNotCounted(w.env, Orphan(w.env, content));
    OrphanKeepsHandles(w.env, content);
    forall id | id in w.objects ensures ObjectOk(Orphan(w.env, content), id, w.objects[id]) {
      assert ObjectOk(w.env, id, w.objects[id]);
    }
  }

  lemma StrayIsCounted(env: Env, handle: Handle)
    requires Counted(env) && handle in env.programs
    ensures var retained := RetainProgram(env, handle).value; Counted(retained.(strays := retained.strays + multiset{handle}))
  {
  }

  lemma UnnamedKeepsInv(w: World, content: Content, programHandle: Option<Handle>)
    requires Inv(w)
    ensures Inv(SuspendUnnamed(w, content, programHandle))
  {
    hide Inv, Counted, Handles, ObjectsOk, Named, ClaimsOk;
    OrphanKeepsInv(w, content);
    var orphaned := w.(env := Orphan(w.env, content));
    InvParts(orphaned);
    if programHandle.Some? && programHandle.value in w.env.programs {
      StrayIsCounted(orphaned.env, programHandle.value);
      var env := SuspendUnnamed(w, content, programHandle).env;
      ProgramsHaveNoSnapshots(orphaned.env, env);
      SameTablesStayOk(orphaned, env);
      ChangeTables(orphaned, env);
    }
  }

  lemma SameTablesStayOk(w: World, env: Env)
    requires ObjectsOk(w) && env.programHolders == w.env.programHolders && env.snapshotHolders == w.env.snapshotHolders
    requires env.snapshots == w.env.snapshots && env.claims == w.env.claims
    ensures ObjectsOk(w.(env := env))
  {
    forall id | id in w.objects ensures ObjectOk(env, id, w.objects[id]) {
      assert ObjectOk(w.env, id, w.objects[id]);
    }
  }

  lemma StartKeepsInv(w: World, id: Id, loads: bool, outcome: Outcome)
    requires Inv(w)
    ensures Inv(StartStep(w, id, loads, outcome))
  {
    hide Inv, Counted, Handles, Named, ClaimsOk, ObjectOk, Settle;
    if id in w.mustards {
      EnsureKeepsInv(w, id, loads);
      var ready := EnsureMustard(w, id, loads);
      InvParts(ready);
      var handle := ready.mustards[id].programHandle;
      if handle.Some? {
        HoldersHavePrograms(ready.env, id);
        SettleKeepsInv(ready, outcome, handle, None);
      }
    }
  }

  /** What `Enter` is made of: the claim, the released handle, the log entry and the spent object. */
  lemma EnterKeepsInv(w: World, id: Id)
    requires Inv(w) && Enters(w, id)
    ensures Inv(Enter(w, id))
  {
    hide Inv, Counted, Handles;
    InvParts(w);
    var p := w.objects[id];
    var handle := p.snapshotHandle.value;
    if p.claimState.Unclaimed? && p.identity.Some? {
      GainClaim(w, p.identity.value, id);
    }
    var claimed := w.(env := ClaimFor(w.env, id, p));
    var without := claimed.(objects := w.objects - {id});
    LoseObject(claimed, id);
    FinalizeSnapshotKeepsInv(without, id);
    var released := FinalizeSnapshotStep(without, id);
    HandleIsUnspent(w, id);
    var entry := Entered(id, handle, w.env.snapshots[handle], p.identity.Some?);
    GainEntry(released, entry);
    var logged := released.(env := released.env.(entered := released.env.entered + [entry]));
    GainObject(logged, id, p.(snapshotHandle := None, claimState := Consumed));
    assert (w.objects - {id})[id := p.(snapshotHandle := None, claimState := Consumed)]
        == w.objects[id := p.(snapshotHandle := None, claimState := Consumed)];
  }

  lemma HandleIsUnspent(w: World, id: Id)
    requires Inv(w) && Enters(w, id)
    ensures w.objects[id].snapshotHandle.value < w.env.nextHandle
    ensures forall i :: 0 <= i < |w.env.entered| ==>
      w.env.entered[i].handle != w.objects[id].snapshotHandle.value && w.env.entered[i].owner != id
  {
    hide Counted;
  }

  lemma ResumeKeepsInv(w: World, id: Id, outcome: Outcome)
    requires Inv(w)
    ensures Inv(ResumeStep(w, id, outcome))
  {
    hide Inv, Counted, Handles, Named, ClaimsOk, Settle;
    if Enters(w, id) {
      InvParts(w);
      EnterKeepsInv(w, id);
      var p := w.objects[id];
      if p.programHandle.Some? {
        HoldersHavePrograms(w.env, id);
      }
      SettleKeepsInv(Enter(w, id), outcome, p.programHandle, p.program);
    }
  }

  lemma BeginLoadKeepsInv(w: World, content: Content, program: Option<Code>)
    requires Inv(w)
    ensures Inv(BeginLoadStep(w, content, program))
  {
    hide Inv, Counted, Handles;
    if content !in w.env.claims {
      TakeName(w);
      var named := w.(nextId := w.nextId + 1);
      GainClaim(named, content, w.nextId);
      GainLoad(named.(env := named.env.(claims := named.env.claims[content := w.nextId])), w.nextId, PendingLoad(content, program));
    }
  }

  lemma GainLoad(w: World, id: Id, load: PendingLoad)
    requires Inv(w) && Unused(w, id) && id !in w.env.programHolders && id !in w.env.snapshotHolders
    requires load.content in w.env.claims && w.env.claims[load.content] == id
    requires forall i :: 0 <= i < |w.env.entered| ==> w.env.entered[i].owner != id
    ensures Inv(w.(loads := w.loads[id := load]))
  {
    hide Counted, Handles, ObjectOk, Registered;
  }

  lemma LoadIsUnused(w: World, id: Id)
    requires Inv(w) && id in w.loads
    ensures Unused(w.(loads := w.loads - {id}), id) && id !in w.env.programHolders && id !in w.env.snapshotHolders
    ensures w.loads[id].content in w.env.claims && w.env.claims[w.loads[id].content] == id
    ensures forall i :: 0 <= i < |w.env.entered| ==> w.env.entered[i].owner != id
  {
    hide Counted, Handles, ObjectOk;
  }

  /** The object a load makes once its program, if any, is held. */
  lemma GainLoaded(w: World, id: Id, load: PendingLoad, programHandle: Option<Handle>)
    requires Inv(w) && Unused(w, id) && id !in w.env.snapshotHolders
    requires Registered(w.env.programHolders, id, programHandle) && (load.program.Some? ==> programHandle.Some?)
    requires load.content in w.env.claims && w.env.claims[load.content] == id
    requires forall i :: 0 <= i < |w.env.entered| ==> w.env.entered[i].owner != id
    ensures var (env, handle) := HoldNewSnapshot(w.env, id, load.content);
      Inv(w.(env := env, objects := w.objects[
        id := Progress(Claimed, Some(load.content), Some(load.content), Some(handle), programHandle, load.program)]))
  {
    hide Inv;
    var (env, handle) := HoldNewSnapshot(w.env, id, load.content);
    GainSnapshotHolder(w, id, load.content);
    GainObject(w.(env := env), id,
               Progress(Claimed, Some(load.content), Some(load.content), Some(handle), programHandle, load.program));
  }

  lemma LoadedKeepsInv(w: World, id: Id)
    requires Inv(w) && id in w.loads
    ensures Inv(FinishLoadStep(w, id, Loaded))
  {
    hide Inv, Counted, Handles, ObjectsOk, Named, ClaimsOk;
    InvParts(w);
    LoadIsUnused(w, id);
    var load := w.loads[id];
    var rest := w.(loads := w.loads - {id});
    LoseLoad(w, id);
    if load.program.Some? {
      var (env, handle) := HoldNewProgram(w.env, id, load.program.value);
      HoldNewIsCounted(w.env, id, load.program.value);
      GainProgramHolder(rest, id, env);
      GainLoaded(rest.(env := env), id, load, Some(handle));
    } else {
      GainLoaded(rest, id, load, None);
    }
  }

  /** A load that fails leaves the tables as they were. */
  lemma FailedLoadRestoresTables(env: Env, load: PendingLoad, result: LoadResult)
    requires Counted(env) && Handles(env)
    ensures var after := FailLoad(env, load, result);
      after == env.(nextHandle := after.nextHandle) && env.nextHandle <= after.nextHandle
  {
    if load.program.Some? {
      assert env.programs[env.nextHandle := ProgramEntry(load.program.value, 1)] - {env.nextHandle} == env.programs;
    }
    var next := if load.program.Some? then env.nextHandle + 1 else env.nextHandle;
    assert env.snapshots[next := load.content] - {next} == env.snapshots;
  }

  lemma FailedKeepsInv(w: World, id: Id, result: LoadResult)
    requires Inv(w) && id in w.loads && !result.Loaded?
    ensures Inv(FinishLoadStep(w, id, result))
  {
    hide FailLoad, Inv;
    InvParts(w);
    FailedLoadRestoresTables(w.env, w.loads[id], result);
    LaterHandles(w, FailLoad(w.env, w.loads[id], result).nextHandle);
    LoseClaim(w.(env := FailLoad(w.env, w.loads[id], result)), id);
  }

  /** Giving up a load and the claim it holds. */
  lemma LoseClaim(w: World, id: Id)
    requires Inv(w) && id in w.loads
    ensures Inv(w.(loads := w.loads - {id}, env := w.env.(claims := w.env.claims - {w.loads[id].content})))
  {
    hide Counted, Handles, Registered;
    var env := w.env.(claims := w.env.claims - {w.loads[id].content});
    SnapshotsAreNotCounted(w.env, env);
    ProgramsHaveNoSnapshots(w.env, env);
  }

  lemma DumpKeepsInv(w: World, id: Id)
    requires Inv(w)
    ensures Inv(DumpStep(w, id)) && Inv(ReadStep(w, id))
  {
    hide Inv, Counted, Handles, ClaimsOk, Named;
    InvParts(w);
    if id in w.objects && EnsureBytes(w.env, w.objects[id]).Some? {
      var p := EnsureBytes(w.env, w.objects[id]).value;
      ReplaceObject(w, id, p);
      ReplaceObject(w, id, EnsureProgramBytes(w.env, p));
    }
  }

  lemma ReplaceObject(w: World, id: Id, p: Progress)
    requires Inv(w) && id in w.objects && ObjectOk(w.env, id, p) && p.claimState == w.objects[id].claimState
    ensures Inv(w.(objects := w.objects[id := p]))
  {
    hide Counted, Handles, ObjectOk, Registered;
  }

  lemma CollectKeepsInv(w: World, id: Id)
    requires Inv(w)
    ensures Inv(Act(w, Collect(id)))
  {
    hide Inv;
    LoseObject(w, id);
    LoseMustard(w.(objects := w.objects - {id}), id);
  }

  lemma FinalizeProgramKeepsInv(w: World, id: Id)
    requires Inv(w)
    ensures Inv(FinalizeProgramStep(w, id))
  {
    hide Inv, Counted, Handles, ObjectsOk, Named, ClaimsOk;
    if id in w.env.programHolders && id !in w.objects && id !in w.mustards {
      InvParts(w);
      var env := FinalizeProgramStep(w, id).env;
      ReleaseIsCounted(w.env, id);
      ProgramsHaveNoSnapshots(w.env, env);
      OthersStayOk(w, env, id);
      ChangeTables(w, env);
    }
  }

  lemma ReleasedHandle(env: Env, id: Id)
    requires Handles(env) && id in env.snapshotHolders
    ensures var handle := env.snapshotHolders[id];
      var after := env.(snapshots := env.snapshots - {handle}, snapshotHolders := env.snapshotHolders - {id});
      Handles(after) && forall other :: other in env.snapshotHolders && other != id ==>
        env.snapshotHolders[other] in after.snapshots
        && after.snapshots[env.snapshotHolders[other]] == env.snapshots[env.snapshotHolders[other]]
  {
    var rest := env.snapshotHolders - {id};
    forall h | h in env.snapshots && Owned(env.snapshotHolders, h) && h != env.snapshotHolders[id] ensures Owned(rest, h) {
      var owner :| owner in env.snapshotHolders && env.snapshotHolders[owner] == h;
      assert rest[owner] == h;
    }
  }

  lemma FinalizeSnapshotKeepsInv(w: World, id: Id)
    requires Inv(w)
    ensures Inv(FinalizeSnapshotStep(w, id))
  {
    hide Counted, Handles, ObjectsOk, ClaimsOk;
    if id in w.env.snapshotHolders && id !in w.objects {
      var env := FinalizeSnapshotStep(w, id).env;
      ReleasedHandle(w.env, id);
      SnapshotsAreNotCounted(w.env, env);
      OthersStayOk(w, env, id);
      ChangeTables(w, env);
    }
  }

  lemma HistoryIsNotTables(w: World, history: History)
    requires Inv(w)
    ensures Inv(w.(history := history))
  {
    hide Counted, Handles;
  }

  lemma ApplyKeepsInv(w: World, event: Event)
    requires Inv(w)
    ensures Inv(Apply(w, event))
  {
    hide Inv, Act;
    ActKeepsInv(w, event);
    HistoryIsNotTables(Act(w, event), Remember(w, event));
  }

  lemma ActKeepsInv(w: World, event: Event)
    requires Inv(w)
    ensures Inv(Act(w, event))
  {
    hide Inv, StartStep, ResumeStep, BeginLoadStep, FinishLoadStep, DumpStep, ReadStep, FinalizeProgramStep, FinalizeSnapshotStep;
    match event
    case Compile(code) => CompileKeepsInv(w, code);
    case Validate(code) => ValidateKeepsInv(w, code);
    case LoadMustard(code) => LoadMustardKeepsInv(w, code);
    case Start(id, loads, outcome) => StartKeepsInv(w, id, loads, outcome);
    case Resume(id, outcome) => ResumeKeepsInv(w, id, outcome);
    case ReadSnapshot(id) => DumpKeepsInv(w, id);
    case Dump(id) => DumpKeepsInv(w, id);
    case BeginLoad(content, program) => BeginLoadKeepsInv(w, content, program);
    case FinishLoad(id, result) => FinishLoadKeepsInv(w, id, result);
    case Collect(id) => CollectKeepsInv(w, id);
    case FinalizeProgram(id) => FinalizeProgramKeepsInv(w, id);
    case FinalizeSnapshot(id) => FinalizeSnapshotKeepsInv(w, id);
  }

  lemma ValidateKeepsInv(w: World, code: Code)
    requires Inv(w)
    ensures Inv(Act(w, Validate(code)))
  {
    hide Handles, ObjectsOk, Named, ClaimsOk, Counted;
    ReleaseOfNewIsNothing(w.env, code);
    LaterHandles(w, w.env.nextHandle + 1);
  }

  lemma LoadMustardKeepsInv(w: World, code: Code)
    requires Inv(w)
    ensures Inv(Act(w, LoadMustard(code)))
  {
    hide Counted, Handles;
  }

  lemma FinishLoadKeepsInv(w: World, id: Id, result: LoadResult)
    requires Inv(w)
    ensures Inv(FinishLoadStep(w, id, result))
  {
    hide Inv;
    if id in w.loads {
      if result.Loaded? {
        LoadedKeepsInv(w, id);
      } else {
        FailedKeepsInv(w, id, result);
      }
    }
  }

  /** Every reachable state satisfies the invariant. */
  lemma {:induction false} RunKeepsInv(events: seq<Event>)
    ensures Inv(Run(events))
    decreases |events|
  {
    hide Apply;
    if events != [] {
      hide Inv;
      RunKeepsInv(events[..|events| - 1]);
      ApplyKeepsInv(Run(events[..|events| - 1]), events[|events| - 1]);
    }
  }
}

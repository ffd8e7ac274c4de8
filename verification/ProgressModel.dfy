/**
 Progress objects, native handle tables and the claim registry as one state machine
 (lib/progress.ts, lib/runtime.ts, crates/mustard-node/src/lib.rs).

 A snapshot's identity is the SHA-256 digest of its bytes and digests do not collide, so an identity
 is written as the `Content` it identifies.  Handles are random 128-bit names; none is given twice.
 What compiling, starting, resuming and loading return is up to the event.
 */
module ProgressModel {
  import opened Wrappers
  import opened StructuredValues

  type Content = seq<byte>
  type Code = seq<byte>
  type Handle = nat
  type Id = nat

  // ------------------------------------------------------------------ native tables

  datatype ProgramEntry = ProgramEntry(code: Code, refCount: nat)

  /** A call of native resume: from which object, with which handle and snapshot, and whether the
      object knew its identity then, having been dumped, read or loaded. */
  datatype Entered = Entered(owner: Id, handle: Handle, content: Content, known: bool)

  /** Process-wide state.  `claims` names who created each claim file; the holders are the owners
      registered for finalisation, dead ones whose finaliser has not run included.  The code keeps no
      record of the last three: native resumes, references to programs that no owner holds, and snapshot
      handles that no owner was registered for. */
  datatype Env = Env(
    programs: map<Handle, ProgramEntry>,
    snapshots: map<Handle, Content>,
    nextHandle: Handle,
    claims: map<Content, Id>,
    programHolders: map<Id, Handle>,
    snapshotHolders: map<Id, Handle>,
    entered: seq<Entered>,
    strays: multiset<Handle>,
    orphans: set<Handle>)

  function InsertProgram(env: Env, code: Code): (Env, Handle) {
    (env.(programs := env.programs[env.nextHandle := ProgramEntry(code, 1)], nextHandle := env.nextHandle + 1),
     env.nextHandle)
  }

  /** `None` for an unknown handle. */
  function RetainProgram(env: Env, handle: Handle): Option<Env> {
    if handle in env.programs then
      var entry := env.programs[handle];
      Some(env.(programs := env.programs[handle := entry.(refCount := entry.refCount + 1)]))
    else None
  }

  function ReleaseProgram(env: Env, handle: Handle): Env {
    if handle !in env.programs then env
    else
      var entry := env.programs[handle];
      if entry.refCount > 1 then env.(programs := env.programs[handle := entry.(refCount := entry.refCount - 1)])
      else env.(programs := env.programs - {handle})
  }

  function InsertSnapshot(env: Env, content: Content): (Env, Handle) {
    (env.(snapshots := env.snapshots[env.nextHandle := content], nextHandle := env.nextHandle + 1), env.nextHandle)
  }

  function ReleaseSnapshot(env: Env, handle: Handle): Env {
    env.(snapshots := env.snapshots - {handle})
  }

  // ------------------------------------------------------------------ objects

  datatype ClaimState = Unclaimed | Claimed | Consumed

  datatype Progress = Progress(
    claimState: ClaimState,
    identity: Option<Content>,
    bytes: Option<Content>,
    snapshotHandle: Option<Handle>,
    programHandle: Option<Handle>,
    program: Option<Code>)

  datatype Mustard = Mustard(programHandle: Option<Handle>, program: Option<Code>)

  /** `#ensureSnapshotBytes`; `None` when it throws. */
  function EnsureBytes(env: Env, p: Progress): Option<Progress> {
    if p.bytes.Some? then Some(p)
    else if p.snapshotHandle.None? || p.snapshotHandle.value !in env.snapshots then None
    else
      var content := env.snapshots[p.snapshotHandle.value];
      Some(p.(bytes := Some(content), identity := if p.identity.Some? then p.identity else Some(content)))
  }

  /** `#ensureProgramBytes` as `dump` uses it. */
  function EnsureProgramBytes(env: Env, p: Progress): Progress {
    if p.program.Some? || p.programHandle.None? || p.programHandle.value !in env.programs then p
    else p.(program := Some(env.programs[p.programHandle.value].code))
  }

  /** `#consumeSnapshotHandle` throws. */
  predicate ConsumeRefused(env: Env, p: Progress) {
    p.claimState.Consumed? || (p.claimState.Unclaimed? && p.identity.Some? && p.identity.value in env.claims)
  }

  /** The claim it makes for an object that is not refused. */
  function ClaimFor(env: Env, id: Id, p: Progress): Env {
    if p.claimState.Unclaimed? && p.identity.Some? then env.(claims := env.claims[p.identity.value := id]) else env
  }

  // ------------------------------------------------------------------ the process

  /** A load that has claimed its identity and not finished. */
  datatype PendingLoad = PendingLoad(content: Content, program: Option<Code>)

  /** Which snapshots the machine made in this process, which were dumped or read here, and which were
      loaded here without having been. */
  datatype History = History(made: set<Content>, shown: set<Content>, foreign: set<Content>)

  datatype World = World(
    env: Env,
    objects: map<Id, Progress>,
    mustards: map<Id, Mustard>,
    loads: map<Id, PendingLoad>,
    nextId: Id,
    history: History)

  /** What a native start or resume gives: a suspension is on a named capability; `Unreadable` is one
      `parseStep` throws on. */
  datatype Outcome = Fails | Completes | Suspends(capability: string, content: Content) | Unreadable(content: Content)

  datatype LoadResult = Loaded | ProgramRejected | SnapshotRejected | InspectionRejected

  datatype Event =
    | Compile(code: Code)
    | Validate(code: Code)
    | LoadMustard(code: Code)
    | Start(mustard: Id, loads: bool, outcome: Outcome)
    | Resume(object: Id, outcome: Outcome)
    | ReadSnapshot(object: Id)
    | Dump(object: Id)
    | BeginLoad(content: Content, program: Option<Code>)
    | FinishLoad(load: Id, result: LoadResult)
    | Collect(owner: Id)
    | FinalizeProgram(owner: Id)
    | FinalizeSnapshot(owner: Id)

  /** A new owner of a freshly inserted program. */
  function HoldNewProgram(env: Env, id: Id, code: Code): (Env, Handle) {
    var (inserted, handle) := InsertProgram(env, code);
    (inserted.(programHolders := inserted.programHolders[id := handle]), handle)
  }

  function HoldNewSnapshot(env: Env, id: Id, content: Content): (Env, Handle) {
    var (inserted, handle) := InsertSnapshot(env, content);
    (inserted.(snapshotHolders := inserted.snapshotHolders[id := handle]), handle)
  }

  /** `_ensureProgramHandle` of a live Mustard. */
  function EnsureMustard(w: World, id: Id, loads: bool): World
    requires id in w.mustards
  {
    var mustard := w.mustards[id];
    if mustard.programHandle.Some? || mustard.program.None? || !loads then w
    else
      var (env, handle) := HoldNewProgram(w.env, id, mustard.program.value);
      w.(env := env, mustards := w.mustards[id := mustard.(programHandle := Some(handle))])
  }

  /** A suspension no object is made for. */
  function Orphan(env: Env, content: Content): Env {
    var (inserted, handle) := InsertSnapshot(env, content);
    inserted.(orphans := inserted.orphans + {handle})
  }

  /** `materializeStep` on a suspension on a capability without a name: the program is retained, and then
      `createSuspendedManifest` throws before anything is registered. */
  function SuspendUnnamed(w: World, content: Content, programHandle: Option<Handle>): World {
    var env := Orphan(w.env, content);
    if programHandle.None? || programHandle.value !in env.programs then w.(env := env)
    else
      var retained := RetainProgram(env, programHandle.value).value;
      w.(env := retained.(strays := retained.strays + multiset{programHandle.value}))
  }

  /** `materializeStep` on a named suspension: retain the program and make a new object.  The snapshot is
      in the table already when retaining fails. */
  function Suspend(w: World, content: Content, programHandle: Option<Handle>, program: Option<Code>): World {
    if programHandle.Some? && programHandle.value !in w.env.programs then w.(env := Orphan(w.env, content))
    else
      var id := w.nextId;
      var (env, snapshotHandle) := InsertSnapshot(w.env, content);
      var retained := if programHandle.Some? then RetainProgram(env, programHandle.value).value else env;
      var held := retained.(
        programHolders := if programHandle.Some? then retained.programHolders[id := programHandle.value] else retained.programHolders,
        snapshotHolders := retained.snapshotHolders[id := snapshotHandle]);
      w.(env := held, nextId := id + 1,
         objects := w.objects[id := Progress(Unclaimed, None, None, Some(snapshotHandle), programHandle, program)])
  }

  function Settle(w: World, outcome: Outcome, programHandle: Option<Handle>, program: Option<Code>): World {
    match outcome
    case Fails => w
    case Completes => w
    case Suspends(capability, content) =>
      if capability == "" then SuspendUnnamed(w, content, programHandle) else Suspend(w, content, programHandle, program)
    case Unreadable(content) => w.(env := Orphan(w.env, content))
  }

  function StartStep(w: World, id: Id, loads: bool, outcome: Outcome): World {
    if id !in w.mustards then w
    else
      var ready := EnsureMustard(w, id, loads);
      var handle := ready.mustards[id].programHandle;
      if handle.None? then ready else Settle(ready, outcome, handle, None)
  }

  predicate Enters(w: World, id: Id) {
    && id in w.objects
    && !ConsumeRefused(w.env, w.objects[id])
    && w.objects[id].snapshotHandle.Some?
    && w.objects[id].snapshotHandle.value in w.env.snapshots
  }

  /** Consuming an object, entering native resume with its handle and dropping the handle. */
  function Enter(w: World, id: Id): World
    requires Enters(w, id)
  {
    var p := w.objects[id];
    var handle := p.snapshotHandle.value;
    var claimed := ClaimFor(w.env, id, p);
    var entry := Entered(id, handle, claimed.snapshots[handle], p.identity.Some?);
    var env := claimed.(
      snapshotHolders := claimed.snapshotHolders - {id},
      snapshots := claimed.snapshots - {handle},
      entered := claimed.entered + [entry]);
    w.(env := env, objects := w.objects[id := p.(snapshotHandle := None, claimState := Consumed)])
  }

  /** `#resumeWithPayload`: an object that is refused changes nothing. */
  function ResumeStep(w: World, id: Id, outcome: Outcome): World {
    if !Enters(w, id) then w
    else Settle(Enter(w, id), outcome, w.objects[id].programHandle, w.objects[id].program)
  }

  function BeginLoadStep(w: World, content: Content, program: Option<Code>): World {
    if content in w.env.claims then w
    else
      w.(env := w.env.(claims := w.env.claims[content := w.nextId]),
         loads := w.loads[w.nextId := PendingLoad(content, program)],
         nextId := w.nextId + 1)
  }

  /** The native half of a load that fails: what it inserted is released again. */
  function FailLoad(env: Env, load: PendingLoad, result: LoadResult): Env {
    if result.ProgramRejected? then env
    else
      var (withProgram, programHandle) := if load.program.Some? then InsertProgram(env, load.program.value) else (env, 0);
      var (withSnapshot, snapshotHandle) :=
        if result.InspectionRejected? then InsertSnapshot(withProgram, load.content) else (withProgram, 0);
      var noSnapshot := if result.InspectionRejected? then ReleaseSnapshot(withSnapshot, snapshotHandle) else withSnapshot;
      if load.program.Some? then ReleaseProgram(noSnapshot, programHandle) else noSnapshot
  }

  function FinishLoadStep(w: World, id: Id, result: LoadResult): World {
    if id !in w.loads then w
    else
      var load := w.loads[id];
      var rest := w.(loads := w.loads - {id});
      if result.Loaded? then
        var (withProgram, programHandle) :=
          if load.program.Some? then
            var (env, handle) := HoldNewProgram(w.env, id, load.program.value);
            (env, Some(handle))
          else (w.env, None);
        var (env, snapshotHandle) := HoldNewSnapshot(withProgram, id, load.content);
        rest.(env := env,
              objects := w.objects[id := Progress(Claimed, Some(load.content), Some(load.content), Some(snapshotHandle),
                                                  programHandle, load.program)])
      else
        var env := FailLoad(w.env, load, result);
        rest.(env := env.(claims := env.claims - {load.content}))
  }

  function DumpStep(w: World, id: Id): World {
    if id !in w.objects then w
    else
      match EnsureBytes(w.env, w.objects[id])
      case None => w
      case Some(p) => w.(objects := w.objects[id := EnsureProgramBytes(w.env, p)])
  }

  function ReadStep(w: World, id: Id): World {
    if id !in w.objects then w
    else
      match EnsureBytes(w.env, w.objects[id])
      case None => w
      case Some(p) => w.(objects := w.objects[id := p])
  }

  function FinalizeProgramStep(w: World, id: Id): World {
    if id in w.objects || id in w.mustards || id !in w.env.programHolders then w
    else
      var env := ReleaseProgram(w.env, w.env.programHolders[id]);
      w.(env := env.(programHolders := env.programHolders - {id}))
  }

  function FinalizeSnapshotStep(w: World, id: Id): World {
    if id in w.objects || id !in w.env.snapshotHolders then w
    else
      var env := ReleaseSnapshot(w.env, w.env.snapshotHolders[id]);
      w.(env := env.(snapshotHolders := env.snapshotHolders - {id}))
  }

  /** What an event does. */
  function Act(w: World, event: Event): World {
    match event
    case Compile(code) =>
      var (env, handle) := HoldNewProgram(w.env, w.nextId, code);
      w.(env := env, mustards := w.mustards[w.nextId := Mustard(Some(handle), None)], nextId := w.nextId + 1)
    case Validate(code) =>
      var (env, handle) := InsertProgram(w.env, code);
      w.(env := ReleaseProgram(env, handle))
    case LoadMustard(code) =>
      w.(mustards := w.mustards[w.nextId := Mustard(None, Some(code))], nextId := w.nextId + 1)
    case Start(id, loads, outcome) => StartStep(w, id, loads, outcome)
    case Resume(id, outcome) => ResumeStep(w, id, outcome)
    case ReadSnapshot(id) => ReadStep(w, id)
    case Dump(id) => DumpStep(w, id)
    case BeginLoad(content, program) => BeginLoadStep(w, content, program)
    case FinishLoad(id, result) => FinishLoadStep(w, id, result)
    case Collect(id) => w.(objects := w.objects - {id}, mustards := w.mustards - {id})
    case FinalizeProgram(id) => FinalizeProgramStep(w, id)
    case FinalizeSnapshot(id) => FinalizeSnapshotStep(w, id)
  }

  /** Native start or resume is called. */
  predicate Calls(w: World, event: Event) {
    match event
    case Start(id, loads, _) => id in w.mustards && EnsureMustard(w, id, loads).mustards[id].programHandle.Some?
    case Resume(id, _) => Enters(w, id)
    case _ => false
  }

  /** The snapshot a native call makes, if it suspends. */
  function Made(w: World, event: Event): set<Content> {
    if Calls(w, event) && (event.outcome.Suspends? || event.outcome.Unreadable?) then {event.outcome.content} else {}
  }

  /** What `dump` or `snapshot` of an object shows, if it does not throw. */
  function Shown(w: World, id: Id): set<Content> {
    if id in w.objects && EnsureBytes(w.env, w.objects[id]).Some? && EnsureBytes(w.env, w.objects[id]).value.bytes.Some?
    then {EnsureBytes(w.env, w.objects[id]).value.bytes.value} else {}
  }

  /** What an event adds to the history. */
  function Remember(w: World, event: Event): History {
    match event
    case ReadSnapshot(id) => w.history.(shown := w.history.shown + Shown(w, id))
    case Dump(id) => w.history.(shown := w.history.shown + Shown(w, id))
    case BeginLoad(content, _) =>
      if content in w.env.claims || content in w.history.shown then w.history
      else w.history.(foreign := w.history.foreign + {content})
    case _ => w.history.(made := w.history.made + Made(w, event))
  }

  function Apply(w: World, event: Event): World {
    Act(w, event).(history := Remember(w, event))
  }

  const START: World :=
    World(Env(map[], map[], 0, map[], map[], map[], [], multiset{}, {}), map[], map[], map[], 0, History({}, {}, {}))

  function Run(events: seq<Event>): World
    decreases |events|
  {
    if events == [] then START else Apply(Run(events[..|events| - 1]), events[|events| - 1])
  }
}

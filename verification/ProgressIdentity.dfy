/**
 Native resume and snapshot identities over every run of the process.

 Every suspension draws a number no other suspension of the process gets and keeps it in its snapshot
 (crates/mustard/src/runtime/shared.rs:33-36), so in a genuine run no snapshot is made twice.  Another
 process counts from the start again: a state dumped there can have the snapshot of an object here.
 */
module ProgressIdentity {
  import opened Wrappers
  import opened ProgressModel
  import opened ProgressInvariant
  import opened ProgressTheorems

  predicate Fresh(w: World, event: Event) {
    Made(w, event) !! w.history.made
  }

  /** No suspension makes a snapshot that was made before. */
  ghost predicate Genuine(events: seq<Event>)
    decreases |events|
  {
    events == [] ||
    (Genuine(events[..|events| - 1]) && Fresh(Run(events[..|events| - 1]), events[|events| - 1]))
  }

  // ------------------------------------------------------------------ who knows what

  /** An object that was made here and not resumed: loaded ones are claimed. */
  predicate Local(w: World, id: Id) {
    && id in w.objects && w.objects[id].claimState.Unclaimed?
    && w.objects[id].snapshotHandle.Some? && w.objects[id].snapshotHandle.value in w.env.snapshots
  }

  function ContentOf(w: World, id: Id): Content
    requires Local(w, id)
  {
    w.env.snapshots[w.objects[id].snapshotHandle.value]
  }

  /** The identities anybody knows are of snapshots that were shown here or come from elsewhere. */
  ghost predicate KnownAreSeen(w: World) {
    var seen := w.history.shown + w.history.foreign;
    && (forall id :: id in w.objects && w.objects[id].identity.Some? ==> w.objects[id].identity.value in seen)
    && (forall id :: id in w.loads ==> w.loads[id].content in seen)
    && (forall i :: 0 <= i < |w.env.entered| && w.env.entered[i].known ==> w.env.entered[i].content in seen)
  }

  /** Made here, and shown only if it also came from elsewhere. */
  predicate Secret(history: History, content: Content) {
    content in history.made && (content in history.shown ==> content in history.foreign)
  }

  ghost predicate UnknownAreSecret(w: World) {
    && (forall id :: Local(w, id) ==> ContentOf(w, id) in w.history.made)
    && (forall id :: Local(w, id) && w.objects[id].identity.None? ==> Secret(w.history, ContentOf(w, id)))
    && (forall i :: 0 <= i < |w.env.entered| && !w.env.entered[i].known ==> Secret(w.history, w.env.entered[i].content))
  }

  ghost predicate UnknownAreDistinct(w: World) {
    && (forall a, b :: Local(w, a) && Local(w, b) && a != b ==> ContentOf(w, a) != ContentOf(w, b))
    && (forall i, k :: 0 <= i < k < |w.env.entered| && !w.env.entered[i].known && !w.env.entered[k].known
          ==> w.env.entered[i].content != w.env.entered[k].content)
    && (forall a, i :: Local(w, a) && 0 <= i < |w.env.entered| && !w.env.entered[i].known
          ==> ContentOf(w, a) != w.env.entered[i].content)
  }

  ghost predicate Ident(w: World) {
    && KnownAreSeen(w) && UnknownAreSecret(w) && UnknownAreDistinct(w)
    && w.history.shown <= w.history.made + w.history.foreign
  }

  // ------------------------------------------------------------------ every event keeps it

  /** What makes no snapshot, shows none and resumes none. */
  lemma NothingNew(w: World, after: World)
    requires Ident(w) && KnownAreSeen(after) && after.env.entered == w.env.entered
    requires w.history.made <= after.history.made && after.history.shown == w.history.shown
    requires w.history.foreign <= after.history.foreign
    requires forall id :: Local(after, id) ==> SameLocal(w, after, id)
    ensures Ident(after)
  {
  }

  predicate SameLocal(w: World, after: World, id: Id)
    requires Local(after, id)
  {
    Local(w, id) && ContentOf(after, id) == ContentOf(w, id) && (after.objects[id].identity.None? ==> w.objects[id].identity.None?)
  }

  lemma LiveHandles(w: World, id: Id)
    requires Inv(w) && id in w.objects && w.objects[id].snapshotHandle.Some?
    ensures w.objects[id].snapshotHandle.value in w.env.snapshots && w.objects[id].snapshotHandle.value < w.env.nextHandle
    ensures forall other :: other in w.objects && other != id ==> w.objects[other].snapshotHandle != w.objects[id].snapshotHandle
  {
    hide Counted, Named, ClaimsOk;
    assert ObjectOk(w.env, id, w.objects[id]);
    forall other | other in w.objects && other != id ensures w.objects[other].snapshotHandle != w.objects[id].snapshotHandle {
      assert ObjectOk(w.env, other, w.objects[other]);
    }
  }

  /** The history once a native call made `made`. */
  function Having(w: World, made: set<Content>): World {
    w.(history := w.history.(made := w.history.made + made))
  }

  function Makes(outcome: Outcome): set<Content> {
    if outcome.Suspends? || outcome.Unreadable? then {outcome.content} else {}
  }

  lemma SettleKeepsIdent(w: World, outcome: Outcome, programHandle: Option<Handle>, program: Option<Code>)
    requires Inv(w) && Ident(w) && Makes(outcome) !! w.history.made
    requires programHandle.Some? ==> programHandle.value in w.env.programs
    ensures Ident(Having(Settle(w, outcome, programHandle, program), Makes(outcome)))
  {
    hide Inv, Ident, SuspendUnnamed, Suspend;
    match outcome
    case Suspends(capability, content) =>
      if capability == "" {
        UnnamedKeepsIdent(w, content, programHandle);
      } else {
        SuspendKeepsIdent(w, content, programHandle, program);
      }
    case Unreadable(content) => OrphanKeepsIdent(w, content, w.(env := Orphan(w.env, content)));
    case _ => assert Having(w, {}) == w;
  }

  lemma SettleKeepsHistory(w: World, outcome: Outcome, programHandle: Option<Handle>, program: Option<Code>)
    ensures Settle(w, outcome, programHandle, program).history == w.history
  {
  }

  lemma OrphanKeepsIdent(w: World, content: Content, settled: World)
    requires Inv(w) && Ident(w)
    requires settled.objects == w.objects && settled.loads == w.loads && settled.history == w.history
    requires settled.env.entered == w.env.entered && settled.env.snapshots == w.env.snapshots[w.env.nextHandle := content]
    ensures Ident(Having(settled, {content}))
  {
    hide Inv;
    var after := Having(settled, {content});
    forall id | Local(after, id) ensures SameLocal(w, after, id) {
      LiveHandles(w, id);
    }
    NothingNew(w, after);
  }

  lemma UnnamedKeepsIdent(w: World, content: Content, programHandle: Option<Handle>)
    requires Inv(w) && Ident(w)
    ensures Ident(Having(SuspendUnnamed(w, content, programHandle), {content}))
  {
    hide Inv, Ident;
    OrphanKeepsIdent(w, content, SuspendUnnamed(w, content, programHandle));
  }

  /** A new object is the only one that has what it has. */
  lemma SuspendKeepsIdent(w: World, content: Content, programHandle: Option<Handle>, program: Option<Code>)
    requires Inv(w) && Ident(w) && content !in w.history.made
    requires programHandle.Some? ==> programHandle.value in w.env.programs
    ensures Ident(Having(Suspend(w, content, programHandle, program), {content}))
  {
    hide Inv, Suspend, KnownAreSeen, UnknownAreSecret, UnknownAreDistinct;
    var settled := Suspend(w, content, programHandle, program);
    SuspendAddsOne(w, content, programHandle, program);
    forall id | Local(settled, id) && id != w.nextId ensures SameLocal(w, settled, id) {
      LiveHandles(w, id);
    }
    OneMoreIsDistinct(w, settled, content);
  }

  lemma SuspendAddsOne(w: World, content: Content, programHandle: Option<Handle>, program: Option<Code>)
    requires programHandle.Some? ==> programHandle.value in w.env.programs
    ensures var after := Suspend(w, content, programHandle, program);
      && after.objects == w.objects[w.nextId := Progress(Unclaimed, None, None, Some(w.env.nextHandle), programHandle, program)]
      && after.env.snapshots == w.env.snapshots[w.env.nextHandle := content] && after.env.entered == w.env.entered
      && after.loads == w.loads && after.history == w.history
  {
  }

  lemma OneMoreIsDistinct(w: World, settled: World, content: Content)
    requires Ident(w) && content !in w.history.made && w.nextId in settled.objects
    requires settled.objects == w.objects[w.nextId := settled.objects[w.nextId]] && settled.objects[w.nextId].identity.None?
    requires settled.env.entered == w.env.entered && settled.loads == w.loads && settled.history == w.history
    requires Local(settled, w.nextId) && ContentOf(settled, w.nextId) == content
    requires forall id :: Local(settled, id) && id != w.nextId ==> SameLocal(w, settled, id)
    ensures Ident(Having(settled, {content}))
  {
    var after := Having(settled, {content});
    assert forall id :: Local(after, id) ==> Local(settled, id) && ContentOf(after, id) == ContentOf(settled, id);
  }

  lemma StartKeepsIdent(w: World, event: Event)
    requires Inv(w) && Ident(w) && Fresh(w, event) && event.Start?
    ensures Ident(Apply(w, event))
  {
    hide Inv, Ident, Settle, EnsureMustard;
    var Start(id, loads, outcome) := event;
    if id in w.mustards {
      var ready := EnsureMustard(w, id, loads);
      EnsureKeepsInv(w, id, loads);
      EnsureKeepsIdent(w, id, loads);
      if ready.mustards[id].programHandle.Some? {
        MustardKnows(ready, id);
        SettleKeepsIdent(ready, outcome, ready.mustards[id].programHandle, None);
        SettleKeepsHistory(ready, outcome, ready.mustards[id].programHandle, None);
        assert Apply(w, event) == Having(Settle(ready, outcome, ready.mustards[id].programHandle, None), Makes(outcome));
      } else {
        assert Apply(w, event) == ready;
      }
    } else {
      assert Apply(w, event) == w;
    }
  }

  lemma EnsureKeepsIdent(w: World, id: Id, loads: bool)
    requires Ident(w) && id in w.mustards
    ensures var ready := EnsureMustard(w, id, loads);
      Ident(ready) && ready.history == w.history && id in ready.mustards
  {
    NothingNew(w, EnsureMustard(w, id, loads));
  }

  lemma MustardKnows(w: World, id: Id)
    requires Inv(w) && id in w.mustards
    ensures w.mustards[id].programHandle.Some? ==> w.mustards[id].programHandle.value in w.env.programs
  {
    hide Handles, Named, ClaimsOk;
  }

  lemma ObjectKnows(w: World, id: Id)
    requires Inv(w) && id in w.objects
    ensures w.objects[id].programHandle.Some? ==> w.objects[id].programHandle.value in w.env.programs
    ensures w.objects[id].identity.Some? && w.objects[id].snapshotHandle.Some? ==>
      w.objects[id].snapshotHandle.value in w.env.snapshots
      && w.objects[id].identity.value == w.env.snapshots[w.objects[id].snapshotHandle.value]
    ensures w.objects[id].identity == w.objects[id].bytes
    ensures w.objects[id].identity.None? && w.objects[id].snapshotHandle.Some? ==> w.objects[id].claimState.Unclaimed?
  {
    hide Handles, Named, ClaimsOk;
    assert ObjectOk(w.env, id, w.objects[id]);
  }

  /** An object that enters hands what it has over to the log. */
  lemma EnterKeepsIdent(w: World, id: Id)
    requires Inv(w) && Ident(w) && Enters(w, id)
    ensures Ident(Enter(w, id)) && Enter(w, id).history == w.history
  {
    hide Inv, ConsumeRefused;
    ObjectKnows(w, id);
    var after := Enter(w, id);
    forall other | Local(after, other) ensures other != id && SameLocal(w, after, other) {
      LiveHandles(w, other);
    }
    var entry := after.env.entered[|w.env.entered|];
    assert forall i :: 0 <= i < |w.env.entered| ==> after.env.entered[i] == w.env.entered[i];
    assert entry.content == w.env.snapshots[w.objects[id].snapshotHandle.value];
    assert !entry.known ==> Local(w, id);
    assert !entry.known ==> entry.content == ContentOf(w, id);
  }

  lemma ResumeKeepsIdent(w: World, event: Event)
    requires Inv(w) && Ident(w) && Fresh(w, event) && event.Resume?
    ensures Ident(Apply(w, event))
  {
    hide Inv, Ident, Settle, Enter, ConsumeRefused;
    var Resume(id, outcome) := event;
    if Enters(w, id) {
      EnterKeepsIdent(w, id);
      EnterKeepsInv(w, id);
      ObjectKnows(w, id);
      EnterKeepsPrograms(w, id);
      SettleKeepsIdent(Enter(w, id), outcome, w.objects[id].programHandle, w.objects[id].program);
      SettleKeepsHistory(Enter(w, id), outcome, w.objects[id].programHandle, w.objects[id].program);
      assert Apply(w, event) == Having(Settle(Enter(w, id), outcome, w.objects[id].programHandle, w.objects[id].program), Makes(outcome));
    } else {
      assert Apply(w, event) == w;
    }
  }

  lemma EnterKeepsPrograms(w: World, id: Id)
    requires Enters(w, id)
    ensures Enter(w, id).env.programs == w.env.programs
  {
  }

  /** An object that comes to know its identity was the only one to have it. */
  lemma ShowKeepsIdent(w: World, id: Id, p: Progress)
    requires Inv(w) && Ident(w) && id in w.objects && EnsureBytes(w.env, w.objects[id]).Some?
    requires var q := EnsureBytes(w.env, w.objects[id]).value; p.(program := q.program) == q
    ensures Ident(w.(objects := w.objects[id := p], history := w.history.(shown := w.history.shown + Shown(w, id))))
  {
    hide Inv;
    ObjectKnows(w, id);
    var after := w.(objects := w.objects[id := p], history := w.history.(shown := w.history.shown + Shown(w, id)));
    assert p.identity.Some? && p.bytes.Some? && Shown(w, id) == {p.bytes.value};
    if w.objects[id].identity.Some? {
      assert p.identity.value == p.bytes.value;
    } else {
      assert Local(w, id) && ContentOf(w, id) == p.bytes.value == p.identity.value;
    }
    forall other | Local(after, other) ensures SameLocal(w, after, other) {
    }
  }

  lemma ReadKeepsIdent(w: World, id: Id)
    requires Inv(w) && Ident(w)
    ensures Ident(Apply(w, ReadSnapshot(id))) && Ident(Apply(w, Dump(id)))
  {
    hide Inv, Ident;
    if id in w.objects && EnsureBytes(w.env, w.objects[id]).Some? {
      var p := EnsureBytes(w.env, w.objects[id]).value;
      ShowKeepsIdent(w, id, p);
      ShowKeepsIdent(w, id, EnsureProgramBytes(w.env, p));
    } else {
      assert Apply(w, ReadSnapshot(id)) == w == Apply(w, Dump(id)) by {
        assert w.history.shown + {} == w.history.shown;
      }
    }
  }

  lemma BeginLoadKeepsIdent(w: World, content: Content, program: Option<Code>)
    requires Ident(w)
    ensures Ident(Apply(w, BeginLoad(content, program)))
  {
    NothingNew(w, Apply(w, BeginLoad(content, program)));
  }

  lemma FinishLoadKeepsIdent(w: World, id: Id, result: LoadResult)
    requires Inv(w) && Ident(w)
    ensures Ident(Apply(w, FinishLoad(id, result)))
  {
    hide Inv, FailLoad, Ident;
    var after := Apply(w, FinishLoad(id, result));
    assert w.history.made + {} == w.history.made && after.history == w.history;
    if id in w.loads {
      InvParts(w);
      FailedLoadRestoresTables(w.env, w.loads[id], result);
      LoadKeepsSnapshots(w, id, result);
      LoadKeepsKnown(w, id, result);
      NothingNew(w, after);
    } else {
      assert after == w;
    }
  }

  lemma LoadKeepsKnown(w: World, id: Id, result: LoadResult)
    requires Ident(w) && id in w.loads
    requires !result.Loaded? ==> FailLoad(w.env, w.loads[id], result).entered == w.env.entered
    ensures var after := FinishLoadStep(w, id, result); KnownAreSeen(after) && after.env.entered == w.env.entered
  {
    hide FailLoad, UnknownAreSecret, UnknownAreDistinct;
  }

  lemma LoadKeepsSnapshots(w: World, id: Id, result: LoadResult)
    requires Inv(w) && id in w.loads
    requires !result.Loaded? ==> FailLoad(w.env, w.loads[id], result).snapshots == w.env.snapshots
    ensures var after := FinishLoadStep(w, id, result);
      forall other :: Local(after, other) ==> SameLocal(w, after, other)
  {
    hide Inv, FailLoad;
    var after := FinishLoadStep(w, id, result);
    forall other | Local(after, other) ensures SameLocal(w, after, other) {
      LiveHandles(w, other);
    }
  }

  lemma FinalizeProgramKeepsIdent(w: World, id: Id)
    requires Ident(w)
    ensures Ident(Apply(w, FinalizeProgram(id)))
  {
    var after := Apply(w, FinalizeProgram(id));
    assert after.env.snapshots == w.env.snapshots && after.env.entered == w.env.entered;
    NothingNew(w, after);
  }

  lemma QuietKeepsIdent(w: World, event: Event)
    requires Ident(w)
    requires event.Compile? || event.Validate? || event.LoadMustard? || event.Collect? || event.FinalizeSnapshot?
    ensures Ident(Apply(w, event))
  {
    var after := Apply(w, event);
    assert after.env.entered == w.env.entered && after.history.made == w.history.made;
    assert after.env.snapshots.Keys <= w.env.snapshots.Keys;
    NothingNew(w, after);
  }

  lemma ApplyKeepsIdent(w: World, event: Event)
    requires Inv(w) && Ident(w) && Fresh(w, event)
    ensures Ident(Apply(w, event))
  {
    hide Inv, Ident, Apply, Fresh;
    match event
    case Start(_, _, _) => StartKeepsIdent(w, event);
    case Resume(_, _) => ResumeKeepsIdent(w, event);
    case ReadSnapshot(id) => ReadKeepsIdent(w, id);
    case Dump(id) => ReadKeepsIdent(w, id);
    case BeginLoad(content, program) => BeginLoadKeepsIdent(w, content, program);
    case FinishLoad(id, result) => FinishLoadKeepsIdent(w, id, result);
    case FinalizeProgram(id) => FinalizeProgramKeepsIdent(w, id);
    case _ => QuietKeepsIdent(w, event);
  }

  lemma {:induction false} GenuineRunKeepsIdent(events: seq<Event>)
    requires Genuine(events)
    ensures Ident(Run(events))
    decreases |events|
  {
    hide Apply, Fresh;
    if events != [] {
      hide Ident;
      GenuineRunKeepsIdent(events[..|events| - 1]);
      RunKeepsInv(events[..|events| - 1]);
      ApplyKeepsIdent(Run(events[..|events| - 1]), events[|events| - 1]);
    }
  }

  // ------------------------------------------------------------------ once per identity

  /** If native resume is entered twice for one snapshot identity, one of the two objects was loaded or
      dumped and the other was not, and the snapshot was made here and also came from elsewhere. */
  lemma EntersTwiceOnlyForeign(events: seq<Event>, i: nat, k: nat)
    requires Genuine(events)
    requires var entered := Run(events).env.entered; i < k < |entered| && entered[i].content == entered[k].content
    ensures var w := Run(events);
      && w.env.entered[i].known != w.env.entered[k].known
      && w.env.entered[i].content in w.history.foreign && w.env.entered[i].content in w.history.made
  {
    hide Run, Genuine;
    GenuineRunKeepsIdent(events);
    if Run(events).env.entered[i].known && Run(events).env.entered[k].known {
      assert Reachable(Run(events));
      KnownIdentityEntersOnce(Run(events), i, k);
      assert false;
    }
  }

  /** Only states that were dumped here are loaded. */
  ghost predicate LoadsOnlyDumps(events: seq<Event>)
    decreases |events|
  {
    events == [] ||
    (var before, last := events[..|events| - 1], events[|events| - 1];
     LoadsOnlyDumps(before) && (last.BeginLoad? ==> last.content in Run(before).history.shown))
  }

  lemma {:induction false} OwnDumpsAreNotForeign(events: seq<Event>)
    requires LoadsOnlyDumps(events)
    ensures Run(events).history.foreign == {}
    decreases |events|
  {
    hide Act;
    if events != [] {
      OwnDumpsAreNotForeign(events[..|events| - 1]);
    }
  }

  /** Where only states that were dumped here are loaded, native resume is entered at most once for each
      snapshot identity, whether anybody knew it or not. */
  lemma IdentityEntersOnce(events: seq<Event>, i: nat, k: nat)
    requires Genuine(events) && LoadsOnlyDumps(events) && i < k < |Run(events).env.entered|
    ensures Run(events).env.entered[i].content != Run(events).env.entered[k].content
  {
    hide Run, Genuine, LoadsOnlyDumps;
    OwnDumpsAreNotForeign(events);
    if Run(events).env.entered[i].content == Run(events).env.entered[k].content {
      EntersTwiceOnlyForeign(events, i, k);
    }
  }

  /** Once native resume was entered for an identity, another object with that snapshot is refused exactly
      when it and the object that entered both knew the identity; where it is not, the snapshot came from
      elsewhere. */
  lemma SecondEntryExactly(events: seq<Event>, i: nat, id: Id)
    requires Genuine(events)
    requires var w := Run(events); i < |w.env.entered| && id in w.objects && !w.objects[id].claimState.Consumed?
    ensures var w := Run(events);
      var p := w.objects[id];
      && p.snapshotHandle.Some? && p.snapshotHandle.value in w.env.snapshots
      && (w.env.snapshots[p.snapshotHandle.value] == w.env.entered[i].content ==>
            && (ConsumeRefused(w.env, p) <==> w.env.entered[i].known && p.identity.Some?)
            && (!ConsumeRefused(w.env, p) ==> w.env.entered[i].content in w.history.foreign))
  {
    hide Run, Genuine, Inv, Ident;
    var w := Run(events);
    RunKeepsInv(events);
    GenuineRunKeepsIdent(events);
    assert Reachable(w);
    ObjectFacts(w, id);
    LiveObjectHasHandle(w, id);
    if w.env.entered[i].known {
      SpentIdentityStaysSpent(w, i, id);
      if w.objects[id].identity.None? {
        AfterKnownEntry(w, i, id);
      }
    } else {
      AfterUnknownEntry(w, i, id);
    }
  }

  lemma LiveObjectHasHandle(w: World, id: Id)
    requires Inv(w) && id in w.objects && !w.objects[id].claimState.Consumed?
    ensures w.objects[id].snapshotHandle.Some?
  {
    assert ObjectOk(w.env, id, w.objects[id]);
  }

  lemma AfterKnownEntry(w: World, i: nat, id: Id)
    requires Inv(w) && Ident(w) && i < |w.env.entered| && w.env.entered[i].known
    requires id in w.objects && w.objects[id].snapshotHandle.Some? && w.objects[id].identity.None?
    ensures !ConsumeRefused(w.env, w.objects[id]) && w.objects[id].snapshotHandle.value in w.env.snapshots
    ensures w.env.snapshots[w.objects[id].snapshotHandle.value] == w.env.entered[i].content ==> w.env.entered[i].content in w.history.foreign
  {
    hide Inv, UnknownAreDistinct;
    ObjectKnows(w, id);
    LiveHandles(w, id);
    assert Local(w, id);
  }

  lemma AfterUnknownEntry(w: World, i: nat, id: Id)
    requires Inv(w) && Ident(w) && i < |w.env.entered| && !w.env.entered[i].known
    requires id in w.objects && !w.objects[id].claimState.Consumed? && w.objects[id].snapshotHandle.Some?
    ensures w.objects[id].snapshotHandle.value in w.env.snapshots
    ensures w.env.snapshots[w.objects[id].snapshotHandle.value] == w.env.entered[i].content ==>
      !ConsumeRefused(w.env, w.objects[id]) && w.env.entered[i].content in w.history.foreign
  {
    hide Inv;
    ObjectKnows(w, id);
    LiveHandles(w, id);
    LoadedHaveClaims(w, id);
    if w.objects[id].claimState.Unclaimed? {
      assert Local(w, id);
    }
  }

  lemma LoadedHaveClaims(w: World, id: Id)
    requires Inv(w) && id in w.objects
    ensures w.objects[id].claimState.Claimed? ==> w.objects[id].identity.Some? && !ConsumeRefused(w.env, w.objects[id])
  {
    assert ObjectOk(w.env, id, w.objects[id]);
  }

  ghost predicate EntersTwice(w: World, content: Content) {
    exists i, k :: 0 <= i < k < |w.env.entered| && w.env.entered[i].content == content && w.env.entered[k].content == content
  }

  /** An object that was never dumped. */
  function OneSuspended(code: Code, content: Content): World {
    World(Env(map[0 := ProgramEntry(code, 2)], map[1 := content], 2, map[], map[0 := 0, 1 := 0], map[1 := 1], [], multiset{}, {}),
          map[1 := Progress(Unclaimed, None, None, Some(1), Some(0), None)], map[0 := Mustard(Some(0), None)],
          map[], 2, History({content}, {}, {}))
  }

  /** An object that was never dumped, and a loaded one with the same snapshot. */
  function Twins(code: Code, content: Content): World {
    World(Env(map[0 := ProgramEntry(code, 2)], map[1 := content, 2 := content], 3, map[content := 2], map[0 := 0, 1 := 0],
              map[1 := 1, 2 := 2], [], multiset{}, {}),
          map[1 := Progress(Unclaimed, None, None, Some(1), Some(0), None),
              2 := Progress(Claimed, Some(content), Some(content), Some(2), None, None)],
          map[0 := Mustard(Some(0), None)], map[], 3, History({content}, {}, {content}))
  }

  lemma TwinsAreMade(code: Code, content: Content)
    ensures var events := [Compile(code), Start(0, false, Suspends("f", content)), BeginLoad(content, None), FinishLoad(2, Loaded)];
      Run(events) == Twins(code, content) && Genuine(events)
  {
    var events := [Compile(code), Start(0, false, Suspends("f", content)), BeginLoad(content, None), FinishLoad(2, Loaded)];
    hide Apply, Fresh;
    var w2 := OneSuspended(code, content);
    OneIsStarted(code, content, w2);
    TwinIsLoaded(code, content, w2);
    PrefixRuns(events, [START, Apply(START, events[0]), w2, Apply(w2, events[2]), Twins(code, content)]);
  }

  lemma OneIsStarted(code: Code, content: Content, w: World)
    requires w == OneSuspended(code, content)
    ensures Apply(Apply(START, Compile(code)), Start(0, false, Suspends("f", content))) == w
    ensures Fresh(START, Compile(code)) && Fresh(Apply(START, Compile(code)), Start(0, false, Suspends("f", content)))
  {
    var compiled := Apply(START, Compile(code));
    assert compiled.env.programs == map[0 := ProgramEntry(code, 1)];
    assert Apply(compiled, Start(0, false, Suspends("f", content))).env == w.env;
  }

  lemma TwinIsLoaded(code: Code, content: Content, w: World)
    requires w == OneSuspended(code, content)
    ensures Apply(Apply(w, BeginLoad(content, None)), FinishLoad(2, Loaded)) == Twins(code, content)
    ensures Fresh(w, BeginLoad(content, None)) && Fresh(Apply(w, BeginLoad(content, None)), FinishLoad(2, Loaded))
  {
    assert Apply(Apply(w, BeginLoad(content, None)), FinishLoad(2, Loaded)).env == Twins(code, content).env;
  }

  lemma TwinsAreResumed(code: Code, content: Content)
    ensures var resumed := Apply(Twins(code, content), Resume(1, Completes));
      && resumed.history.foreign == {content}
      && Apply(resumed, Resume(2, Completes)).history.foreign == {content}
      && Apply(resumed, Resume(2, Completes)).env.entered == [Entered(1, 1, content, false), Entered(2, 2, content, true)]
  {
    var resumed := Apply(Twins(code, content), Resume(1, Completes));
    assert resumed.env.entered == [Entered(1, 1, content, false)];
  }

  /** A process loads the dump of another process that has the snapshot of an object here, which was never
      dumped: both are resumed. */
  lemma ForeignTwinsBothEnter(code: Code, content: Content)
    ensures var events := [Compile(code), Start(0, false, Suspends("f", content)), BeginLoad(content, None),
                           FinishLoad(2, Loaded), Resume(1, Completes), Resume(2, Completes)];
      && Genuine(events) && Run(events).history.foreign == {content}
      && Run(events).env.entered == [Entered(1, 1, content, false), Entered(2, 2, content, true)]
  {
    hide Apply, Twins, Run, Genuine, Calls;
    var made := [Compile(code), Start(0, false, Suspends("f", content)), BeginLoad(content, None), FinishLoad(2, Loaded)];
    TwinsAreMade(code, content);
    TwinsAreResumed(code, content);
    OneMore(made, Resume(1, Completes));
    OneMore(made + [Resume(1, Completes)], Resume(2, Completes));
    assert made + [Resume(1, Completes)] + [Resume(2, Completes)] ==
      [Compile(code), Start(0, false, Suspends("f", content)), BeginLoad(content, None), FinishLoad(2, Loaded), Resume(1, Completes),
       Resume(2, Completes)];
  }

  lemma OneMore(events: seq<Event>, event: Event)
    ensures Run(events + [event]) == Apply(Run(events), event)
    ensures Genuine(events) && Made(Run(events), event) == {} ==> Genuine(events + [event])
  {
    assert (events + [event])[..|events|] == events;
  }

  /** A run state by state. */
  lemma {:induction false} PrefixRuns(events: seq<Event>, worlds: seq<World>)
    requires |worlds| == |events| + 1 && worlds[0] == START
    requires forall k :: 0 <= k < |events| ==> worlds[k + 1] == Apply(worlds[k], events[k]) && Fresh(worlds[k], events[k])
    ensures Run(events) == worlds[|events|] && Genuine(events)
    decreases |events|
  {
    hide Apply, Fresh;
    if events != [] {
      PrefixRuns(events[..|events| - 1], worlds[..|events|]);
    }
  }

  /** The identities native resume can be entered twice for are exactly those of the states that are loaded
      without having been dumped or read here before. */
  lemma ExactlyForeignEntersTwice(content: Content, foreign: set<Content>)
    ensures (exists events :: Genuine(events) && Run(events).history.foreign <= foreign && EntersTwice(Run(events), content))
      <==> content in foreign
  {
    hide Run, Genuine;
    forall events | Genuine(events) && EntersTwice(Run(events), content) ensures content in Run(events).history.foreign {
      var i, k :| 0 <= i < k < |Run(events).env.entered| && Run(events).env.entered[i].content == content
                  && Run(events).env.entered[k].content == content;
      EntersTwiceOnlyForeign(events, i, k);
    }
    if content in foreign {
      var events := [Compile([]), Start(0, false, Suspends("f", content)), BeginLoad(content, None),
                     FinishLoad(2, Loaded), Resume(1, Completes), Resume(2, Completes)];
      ForeignTwinsBothEnter([], content);
      assert Run(events).env.entered[0].content == content && Run(events).env.entered[1].content == content;
      assert EntersTwice(Run(events), content);
    }
  }
}

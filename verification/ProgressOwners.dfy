/** Who owns what is in the native tables, over every run of the process. */
module ProgressOwners {
  import opened Wrappers
  import opened ProgressModel
  import opened ProgressInvariant
  import opened ProgressTheorems

  /** The program a native call runs. */
  function ProgramOf(w: World, event: Event): Option<Handle>
    requires Calls(w, event)
  {
    match event
    case Start(id, loads, _) => EnsureMustard(w, id, loads).mustards[id].programHandle
    case Resume(id, _) => w.objects[id].programHandle
  }

  /** A native call suspends on a capability without a name, in the program of `handle`. */
  predicate SuspendsUnnamed(w: World, event: Event, handle: Handle) {
    && Calls(w, event) && event.outcome.Suspends? && event.outcome.capability == ""
    && ProgramOf(w, event) == Some(handle)
  }

  /** A native call suspends and no object is made of it. */
  predicate LosesSnapshot(w: World, event: Event) {
    && Calls(w, event)
    && (event.outcome.Unreadable? || (event.outcome.Suspends? && event.outcome.capability == ""))
  }

  /** How often a run suspended on a capability without a name in the program of `handle`. */
  function UnnamedSuspensions(events: seq<Event>, handle: Handle): nat
    decreases |events|
  {
    if events == [] then 0
    else
      var before := events[..|events| - 1];
      UnnamedSuspensions(before, handle) + if SuspendsUnnamed(Run(before), events[|events| - 1], handle) then 1 else 0
  }

  /** How many suspensions of a run no object was made of. */
  function LostSuspensions(events: seq<Event>): nat
    decreases |events|
  {
    if events == [] then 0
    else
      var before := events[..|events| - 1];
      LostSuspensions(before) + if LosesSnapshot(Run(before), events[|events| - 1]) then 1 else 0
  }

  // ------------------------------------------------------------------ what one event leaves behind

  lemma SettleLeaves(w: World, outcome: Outcome, programHandle: Option<Handle>, program: Option<Code>)
    requires programHandle.Some? ==> programHandle.value in w.env.programs
    ensures var after := Settle(w, outcome, programHandle, program).env;
      var unnamed := outcome.Suspends? && outcome.capability == "";
      && after.strays == w.env.strays + (if unnamed && programHandle.Some? then multiset{programHandle.value} else multiset{})
      && after.orphans == w.env.orphans + (if unnamed || outcome.Unreadable? then {w.env.nextHandle} else {})
      && (unnamed || outcome.Unreadable? ==> after.snapshots == w.env.snapshots[w.env.nextHandle := outcome.content])
  {
    hide Suspend, SuspendUnnamed;
    var content := if outcome.Suspends? then outcome.content else [];
    UnnamedLeaves(w, content, programHandle);
    NamedLeaves(w, content, programHandle, program);
  }

  lemma UnnamedLeaves(w: World, content: Content, programHandle: Option<Handle>)
    requires programHandle.Some? ==> programHandle.value in w.env.programs
    ensures var after := SuspendUnnamed(w, content, programHandle).env;
      && after.strays == w.env.strays + (if programHandle.Some? then multiset{programHandle.value} else multiset{})
      && after.orphans == w.env.orphans + {w.env.nextHandle}
      && after.snapshots == w.env.snapshots[w.env.nextHandle := content]
  {
  }

  lemma NamedLeaves(w: World, content: Content, programHandle: Option<Handle>, program: Option<Code>)
    requires programHandle.Some? ==> programHandle.value in w.env.programs
    ensures var after := Suspend(w, content, programHandle, program).env;
      after.strays == w.env.strays && after.orphans == w.env.orphans
  {
  }

  lemma EnsureLeavesNothing(w: World, id: Id, loads: bool)
    requires id in w.mustards
    ensures var after := EnsureMustard(w, id, loads).env;
      after.strays == w.env.strays && after.orphans == w.env.orphans && after.snapshots == w.env.snapshots
      && w.env.nextHandle <= after.nextHandle && id in EnsureMustard(w, id, loads).mustards
  {
  }

  lemma EnterLeavesNothing(w: World, id: Id)
    requires Enters(w, id)
    ensures var after := Enter(w, id).env;
      after.strays == w.env.strays && after.orphans == w.env.orphans && after.nextHandle == w.env.nextHandle
      && after.programs == w.env.programs && after.snapshots.Keys <= w.env.snapshots.Keys
  {
  }

  lemma FinishLeavesNothing(w: World, id: Id, result: LoadResult)
    ensures FinishLoadStep(w, id, result).env.strays == w.env.strays && FinishLoadStep(w, id, result).env.orphans == w.env.orphans
  {
  }

  /** What an event leaves in `after`: a stray reference and an orphan, each or none. */
  ghost predicate Left(w: World, event: Event, after: Env) {
    && (forall h :: after.strays[h] == w.env.strays[h] + if SuspendsUnnamed(w, event, h) then 1 else 0)
    && (if LosesSnapshot(w, event)
        then exists h :: h !in w.env.snapshots && h !in w.env.orphans && after.orphans == w.env.orphans + {h}
                         && h in after.snapshots && after.snapshots[h] == event.outcome.content
        else after.orphans == w.env.orphans)
  }

  /** An event adds a stray reference exactly when it suspends on a capability without a name, and an
      orphan exactly when it suspends and no object is made; it takes neither away. */
  lemma EventLeaves(w: World, event: Event)
    requires Inv(w)
    ensures Left(w, event, Apply(w, event).env)
  {
    hide Inv, StartStep, ResumeStep, FinishLoadStep, FinalizeProgramStep;
    match event
    case Start(_, _, _) => StartLeaves(w, event);
    case Resume(_, _) => ResumeLeaves(w, event);
    case FinishLoad(id, result) => FinishLeavesNothing(w, id, result);
    case FinalizeProgram(id) => FinalizeLeavesNothing(w, id);
    case _ =>
  }

  lemma FinalizeLeavesNothing(w: World, id: Id)
    ensures FinalizeProgramStep(w, id).env.strays == w.env.strays && FinalizeProgramStep(w, id).env.orphans == w.env.orphans
  {
  }

  lemma StartLeaves(w: World, event: Event)
    requires Inv(w) && event.Start?
    ensures Left(w, event, Apply(w, event).env)
  {
    hide Inv, Settle, EnsureMustard;
    var Start(id, loads, outcome) := event;
    if id in w.mustards {
      var ready := EnsureMustard(w, id, loads);
      HandlesAreOld(w);
      EnsureLeavesNothing(w, id, loads);
      EnsureKeepsInv(w, id, loads);
      MustardFacts(ready, id);
      if ready.mustards[id].programHandle.Some? {
        SettleLeaves(ready, outcome, ready.mustards[id].programHandle, None);
        assert ready.env.nextHandle !in w.env.snapshots;
      }
    }
  }

  lemma ResumeLeaves(w: World, event: Event)
    requires Inv(w) && event.Resume?
    ensures Left(w, event, Apply(w, event).env)
  {
    hide Inv, Settle, Enter, ConsumeRefused;
    var Resume(id, outcome) := event;
    if Enters(w, id) {
      HandlesAreOld(w);
      EnterLeavesNothing(w, id);
      EntersFacts(w, id);
      SettleLeaves(Enter(w, id), outcome, w.objects[id].programHandle, w.objects[id].program);
      assert w.env.nextHandle !in w.env.snapshots;
    }
  }

  lemma HandlesAreOld(w: World)
    requires Inv(w)
    ensures forall h :: h in w.env.snapshots || h in w.env.orphans ==> h < w.env.nextHandle
  {
    hide Counted, ObjectsOk, Named, ClaimsOk;
  }

  lemma MustardFacts(w: World, id: Id)
    requires Inv(w) && id in w.mustards
    ensures w.mustards[id].programHandle.Some? ==> w.mustards[id].programHandle.value in w.env.programs
  {
    hide Handles, Named, ClaimsOk;
  }

  lemma EntersFacts(w: World, id: Id)
    requires Inv(w) && Enters(w, id)
    ensures w.objects[id].programHandle.Some? ==> w.objects[id].programHandle.value in w.env.programs
  {
    hide Handles, Named, ClaimsOk;
    assert ObjectOk(w.env, id, w.objects[id]);
  }

  lemma {:induction false} RunLeaves(events: seq<Event>)
    ensures forall h :: Run(events).env.strays[h] == UnnamedSuspensions(events, h)
    ensures |Run(events).env.orphans| == LostSuspensions(events)
    decreases |events|
  {
    hide Apply, SuspendsUnnamed, LosesSnapshot;
    if events != [] {
      var before := events[..|events| - 1];
      RunLeaves(before);
      RunKeepsInv(before);
      EventLeaves(Run(before), events[|events| - 1]);
    }
  }

  // ------------------------------------------------------------------ programs

  /** The count of a program is its number of owners and of suspensions on a capability without a name;
      it is in the table exactly while there are any. */
  lemma CountsAreOwners(events: seq<Event>, handle: Handle)
    ensures var env := Run(events).env;
      var owners, unnamed := Holders(env.programHolders, handle), UnnamedSuspensions(events, handle);
      && (handle in env.programs <==> owners != {} || unnamed > 0)
      && (handle in env.programs ==>
            && env.programs[handle].refCount == |owners| + unnamed
            && (env.programs[handle].refCount == |owners| <==> unnamed == 0))
  {
    hide Run, Handles, ObjectsOk, Named, ClaimsOk;
    RunKeepsInv(events);
    RunLeaves(events);
    var env := Run(events).env;
    assert handle in env.strays <==> env.strays[handle] > 0;
    if handle !in env.programs {
      NoHolders(env, handle);
    }
  }

  /** Guests call what they are offered. */
  ghost predicate CallsOnly(events: seq<Event>, offered: set<string>) {
    forall e :: e in events && (e.Start? || e.Resume?) && e.outcome.Suspends? ==> e.outcome.capability in offered
  }

  /** Where no capability without a name is offered, counts are owners. */
  lemma {:induction false} NamedCapabilitiesLeaveNoStrays(events: seq<Event>, offered: set<string>, handle: Handle)
    requires CallsOnly(events, offered) && "" !in offered
    ensures UnnamedSuspensions(events, handle) == 0
    decreases |events|
  {
    hide Apply, EnsureMustard, Enters;
    if events != [] {
      var last := events[|events| - 1];
      assert last in events;
      var before := events[..|events| - 1];
      assert forall e :: e in before ==> e in events;
      NamedCapabilitiesLeaveNoStrays(before, offered, handle);
    }
  }

  /** Finalising a dead owner removes its program exactly when it was the last one and no suspension on a
      capability without a name retained it. */
  lemma ProgramGoesWithItsLastOwner(events: seq<Event>, id: Id)
    requires var w := Run(events); id in w.env.programHolders && id !in w.objects && id !in w.mustards
    ensures var w := Run(events);
      var after := Apply(w, FinalizeProgram(id));
      var handle := w.env.programHolders[id];
      && Holders(after.env.programHolders, handle) == Holders(w.env.programHolders, handle) - {id}
      && (handle in after.env.programs <==> Holders(w.env.programHolders, handle) != {id} || UnnamedSuspensions(events, handle) > 0)
      && forall other :: other != handle ==> (other in after.env.programs <==> other in w.env.programs)
  {
    hide Run, Inv, Holders, ReleaseProgram;
    RunKeepsInv(events);
    RunLeaves(events);
    InvParts(Run(events));
    ReleaseRemovesTheLast(Run(events).env, id);
  }

  lemma ReleaseRemovesTheLast(env: Env, id: Id)
    requires Counted(env) && id in env.programHolders
    ensures var handle := env.programHolders[id];
      var after := ReleaseProgram(env, handle);
      && after.programHolders == env.programHolders
      && Holders(env.programHolders - {id}, handle) == Holders(env.programHolders, handle) - {id}
      && (handle in after.programs <==> Holders(env.programHolders, handle) != {id} || env.strays[handle] > 0)
      && forall other :: other != handle ==> (other in after.programs <==> other in env.programs)
  {
    var handle := env.programHolders[id];
    var owners := Holders(env.programHolders, handle);
    var left := owners - {id};
    assert owners == left + {id} && |owners| == |left| + 1;
    assert left == {} <==> owners == {id};
    assert Holders(env.programHolders - {id}, handle) == left;
  }

  /** A program is started, its guest calls the capability without a name, and its Mustard is collected
      and finalised: the entry stays, with a count of one and no owner. */
  lemma UnnamedSuspensionKeepsProgram(code: Code, content: Content)
    ensures var events := [Compile(code), Start(0, false, Suspends("", content)), Collect(0), FinalizeProgram(0)];
      var env := Run(events).env;
      && env.programs == map[0 := ProgramEntry(code, 1)] && env.programHolders == map[]
      && env.snapshots == map[1 := content] && env.snapshotHolders == map[]
      && Run(events).objects == map[] && Run(events).mustards == map[]
  {
    var events := [Compile(code), Start(0, false, Suspends("", content)), Collect(0), FinalizeProgram(0)];
    var w2 := Apply(Apply(START, events[0]), events[1]);
    StartedUnnamed(code, content);
    assert Apply(Apply(w2, events[2]), events[3]).env.programs == map[0 := ProgramEntry(code, 1)];
    assert events[..1] == [events[0]] && events[..2][..1] == events[..1] && events[..3][..2] == events[..2];
    hide Apply;
    assert Run(events[..1]) == Apply(START, events[0]);
    assert Run(events[..2]) == w2;
    assert Run(events[..3]) == Apply(w2, events[2]);
  }

  lemma StartedUnnamed(code: Code, content: Content)
    ensures var w := Apply(Apply(START, Compile(code)), Start(0, false, Suspends("", content)));
      && w.env == Env(map[0 := ProgramEntry(code, 2)], map[1 := content], 2, map[], map[0 := 0], map[], [], multiset{0}, {1})
      && w.objects == map[] && w.mustards == map[0 := Mustard(Some(0), None)]
  {
    var compiled := Apply(START, Compile(code));
    assert compiled.env.programs == map[0 := ProgramEntry(code, 1)];
  }

  // ------------------------------------------------------------------ snapshots

  /** A snapshot in the table has exactly one owner, or it is one of the orphans and has none.  There are as
      many orphans as suspensions no object was made of. */
  lemma SnapshotsAreOwned(events: seq<Event>, handle: Handle)
    ensures var env := Run(events).env;
      && |Holders(env.snapshotHolders, handle)| <= 1
      && (handle in env.snapshots <==> |Holders(env.snapshotHolders, handle)| == 1 || handle in env.orphans)
      && (handle in env.orphans ==> Holders(env.snapshotHolders, handle) == {})
      && |env.orphans| == LostSuspensions(events)
  {
    hide Run, Inv, Counted, ObjectsOk, Named, ClaimsOk;
    RunKeepsInv(events);
    RunLeaves(events);
    InvParts(Run(events));
    var env := Run(events).env;
    var owners := Holders(env.snapshotHolders, handle);
    if owners != {} {
      var owner :| owner in owners;
      assert owners == {owner};
    }
    OwnedHasHolder(env.snapshotHolders, handle);
  }

  lemma OwnedHasHolder(holders: map<Id, Handle>, handle: Handle)
    ensures Owned(holders, handle) <==> Holders(holders, handle) != {}
  {
    if Owned(holders, handle) {
      var owner :| owner in holders && holders[owner] == handle;
      assert owner in Holders(holders, handle);
    }
  }
}

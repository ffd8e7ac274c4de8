/** Single use, failed loads and reference counts over every run of the process. */
module ProgressTheorems {
  import opened Wrappers
  import opened ProgressModel
  import opened ProgressInvariant

  ghost predicate Reachable(w: World) {
    exists events :: w == Run(events)
  }

  lemma ReachableHasInv(w: World)
    requires Reachable(w)
    ensures Inv(w)
  {
    hide Run;
    var events :| w == Run(events);
    RunKeepsInv(events);
  }

  // ------------------------------------------------------------------ single use

  /** Native resume is entered at most once with each snapshot handle. */
  lemma HandleEntersOnce(w: World, i: nat, k: nat)
    requires Reachable(w) && i < k < |w.env.entered|
    ensures w.env.entered[i].handle != w.env.entered[k].handle
  {
    hide Reachable, Counted, ObjectsOk, ClaimsOk;
    ReachableHasInv(w);
  }

  /** If native resume is entered twice for one snapshot identity, at least one of the two objects
      did not know its identity: it had never been dumped, read or loaded. */
  lemma KnownIdentityEntersOnce(w: World, i: nat, k: nat)
    requires Reachable(w) && i < k < |w.env.entered| && w.env.entered[i].content == w.env.entered[k].content
    ensures !w.env.entered[i].known || !w.env.entered[k].known
  {
    hide Reachable, Counted, Handles, ObjectsOk;
    ReachableHasInv(w);
    assert EntryOk(w, w.env.entered[i]) && EntryOk(w, w.env.entered[k]);
  }

  /** A live object is resumed natively exactly when it is not refused: the handle is always there,
      and a refused resume changes nothing at all.  The snapshot entered is the one its identity
      names. */
  lemma ResumeEntersExactly(w: World, id: Id, outcome: Outcome)
    requires Reachable(w) && id in w.objects
    ensures var after := Apply(w, Resume(id, outcome));
      var p := w.objects[id];
      if ConsumeRefused(w.env, p) then after == w
      else
        && p.snapshotHandle.Some? && p.snapshotHandle.value in w.env.snapshots
        && (p.identity.Some? ==> p.identity.value == w.env.snapshots[p.snapshotHandle.value])
        && after.env.entered ==
           w.env.entered + [Entered(id, p.snapshotHandle.value, w.env.snapshots[p.snapshotHandle.value], p.identity.Some?)]
        && after.objects[id].claimState.Consumed?
  {
    hide Reachable, Inv, Settle;
    ReachableHasInv(w);
    ObjectFacts(w, id);
    if Enters(w, id) {
      SettleKeepsOthers(Enter(w, id), outcome, w.objects[id].programHandle, w.objects[id].program, id);
    }
  }

  lemma ObjectFacts(w: World, id: Id)
    requires Inv(w) && id in w.objects
    ensures ObjectOk(w.env, id, w.objects[id]) && id < w.nextId
    ensures w.objects[id].snapshotHandle.Some? ==> w.objects[id].snapshotHandle.value in w.env.snapshots
  {
    assert ObjectOk(w.env, id, w.objects[id]);
  }

  /** Once native resume was entered for an identity by an object that knew it, every object with that
      identity, the copies loaded from its dump included, is refused, and so is every new load. */
  lemma SpentIdentityStaysSpent(w: World, i: nat, id: Id)
    requires Reachable(w) && i < |w.env.entered| && w.env.entered[i].known
    ensures var content := w.env.entered[i].content;
      && (id in w.objects && w.objects[id].identity == Some(content) ==> ConsumeRefused(w.env, w.objects[id]))
      && (forall program :: Apply(w, BeginLoad(content, program)) == w)
  {
    hide Reachable, Counted, Handles;
    ReachableHasInv(w);
    assert EntryOk(w, w.env.entered[i]);
    if id in w.objects {
      assert ObjectOk(w.env, id, w.objects[id]);
    }
  }

  /** What `w` becomes by further events. */
  function RunFrom(w: World, events: seq<Event>): World
    decreases |events|
  {
    if events == [] then w else RunFrom(Apply(w, events[0]), events[1..])
  }

  lemma {:induction false} RunFromIsReachable(w: World, events: seq<Event>)
    requires Reachable(w)
    ensures Reachable(RunFrom(w, events))
    decreases |events|
  {
    hide Apply;
    if events != [] {
      var before: seq<Event> :| w == Run(before);
      RunOfOneMore(before, events[0]);
      RunFromIsReachable(Apply(w, events[0]), events[1..]);
    }
  }

  lemma {:induction false} LogOnlyGrows(w: World, events: seq<Event>)
    ensures var after := RunFrom(w, events).env.entered;
      |w.env.entered| <= |after| && after[..|w.env.entered|] == w.env.entered
    decreases |events|
  {
    hide Apply;
    if events != [] {
      StepKeepsLog(w, events[0]);
      LogOnlyGrows(Apply(w, events[0]), events[1..]);
    }
  }

  lemma StartKeepsLog(w: World, id: Id, loads: bool, outcome: Outcome)
    ensures StartStep(w, id, loads, outcome).env.entered == w.env.entered
  {
    hide Settle;
    if id in w.mustards {
      var ready := EnsureMustard(w, id, loads);
      SettleKeepsLog(ready, outcome, ready.mustards[id].programHandle, None);
    }
  }

  lemma ResumeKeepsLog(w: World, id: Id, outcome: Outcome)
    ensures var after := ResumeStep(w, id, outcome).env.entered;
      |w.env.entered| <= |after| && after[..|w.env.entered|] == w.env.entered
  {
    hide ConsumeRefused, Settle, Enter;
    if Enters(w, id) {
      SettleKeepsLog(Enter(w, id), outcome, w.objects[id].programHandle, w.objects[id].program);
      EnterGrowsLog(w, id);
    }
  }

  lemma EnterGrowsLog(w: World, id: Id)
    requires Enters(w, id)
    ensures |w.env.entered| <= |Enter(w, id).env.entered| && Enter(w, id).env.entered[..|w.env.entered|] == w.env.entered
  {
  }

  lemma SettleKeepsLog(w: World, outcome: Outcome, programHandle: Option<Handle>, program: Option<Code>)
    ensures Settle(w, outcome, programHandle, program).env.entered == w.env.entered
  {
    hide SuspendUnnamed, Suspend;
    if outcome.Suspends? {
      UnnamedKeepsOthers(w, outcome.content, programHandle);
      SuspendKeepsLog(w, outcome.content, programHandle, program);
    }
  }

  lemma SuspendKeepsLog(w: World, content: Content, programHandle: Option<Handle>, program: Option<Code>)
    ensures Suspend(w, content, programHandle, program).env.entered == w.env.entered
  {
  }

  lemma FinishKeepsLog(w: World, id: Id, result: LoadResult)
    ensures FinishLoadStep(w, id, result).env.entered == w.env.entered
  {
  }

  lemma StepKeepsLog(w: World, event: Event)
    ensures |w.env.entered| <= |Apply(w, event).env.entered|
    ensures Apply(w, event).env.entered[..|w.env.entered|] == w.env.entered
  {
    hide StartStep, ResumeStep, FinishLoadStep;
    match event
    case Start(id, loads, outcome) => StartKeepsLog(w, id, loads, outcome);
    case Resume(id, outcome) => ResumeKeepsLog(w, id, outcome);
    case FinishLoad(id, result) => FinishKeepsLog(w, id, result);
    case _ => assert Apply(w, event).env.entered == w.env.entered;
  }

  /** ... and it stays so for ever, whatever happens next. */
  lemma SpentForever(w: World, events: seq<Event>, i: nat, id: Id)
    requires Reachable(w) && i < |w.env.entered| && w.env.entered[i].known
    ensures var later := RunFrom(w, events);
      id in later.objects && later.objects[id].identity == Some(w.env.entered[i].content)
      ==> ConsumeRefused(later.env, later.objects[id])
  {
    hide Reachable, RunFrom, Apply;
    LogOnlyGrows(w, events);
    RunFromIsReachable(w, events);
    assert RunFrom(w, events).env.entered[..|w.env.entered|][i] == RunFrom(w, events).env.entered[i];
    SpentIdentityStaysSpent(RunFrom(w, events), i, id);
  }

  lemma RunOfOneMore(events: seq<Event>, event: Event)
    ensures Run(events + [event]) == Apply(Run(events), event)
  {
    assert (events + [event])[..|events|] == events;
  }

  // ------------------------------------------------------------------ failed loads

  /** A load that fails, however far it got and whatever happened since it began, leaves the native
      tables as they were and its identity free: no object with that identity is held back, and it
      can be loaded again. */
  lemma FailedLoadLeavesIdentityResumable(w: World, load: Id, result: LoadResult, id: Id)
    requires Reachable(w) && load in w.loads && !result.Loaded?
    ensures var after := Apply(w, FinishLoad(load, result));
      var content := w.loads[load].content;
      && after.env.programs == w.env.programs && after.env.snapshots == w.env.snapshots
      && content !in after.env.claims && after.objects == w.objects
      && (id in after.objects && after.objects[id].identity == Some(content) ==>
            (ConsumeRefused(after.env, after.objects[id]) <==> after.objects[id].claimState.Consumed?))
      && forall program :: Apply(after, BeginLoad(content, program)).loads != after.loads
  {
    hide Reachable, FailLoad;
    ReachableHasInv(w);
    FailedLoadRestoresTables(w.env, w.loads[load], result);
    if id in w.objects {
      assert ObjectOk(w.env, id, w.objects[id]);
    }
    var after := Apply(w, FinishLoad(load, result));
    assert after.nextId !in after.loads;
  }

  // ------------------------------------------------------------------ reference counts

  /** A live Mustard or Progress never holds an unknown program handle, and is counted for it. */
  lemma LiveOwnersKnowTheirProgram(w: World, id: Id)
    requires Reachable(w)
    ensures
      && (id in w.objects && w.objects[id].programHandle.Some? ==>
            w.objects[id].programHandle.value in w.env.programs
            && id in Holders(w.env.programHolders, w.objects[id].programHandle.value))
      && (id in w.mustards && w.mustards[id].programHandle.Some? ==>
            w.mustards[id].programHandle.value in w.env.programs
            && id in Holders(w.env.programHolders, w.mustards[id].programHandle.value))
  {
    hide Reachable, Handles, Named, ClaimsOk;
    ReachableHasInv(w);
    if id in w.objects {
      assert ObjectOk(w.env, id, w.objects[id]);
    }
  }

}

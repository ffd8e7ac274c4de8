/** Safety of a sidecar session over whole runs, and that its caches cannot be noticed. */
module SidecarTheorems {
  import opened Wrappers
  import opened StructuredValues
  import opened BoundaryMessages
  import opened SidecarTables

  // ------------------------------------------------------------------ one request

  lemma DeliverKeeps(core: Core, tables: Tables, id: nat, step: Option<VisibleStep>, policyId: string)
    requires Faithful(core) && WellKeyed(core, tables) && policyId in tables.policies
    ensures var after := Deliver(core, tables, id, step, policyId);
      WellKeyed(core, after.tables) && Grown(tables, after.tables) && Resolvable(after.tables, after.response)
  {
    hide WellKeyed, Grown, Faithful;
    if step.Some? && step.value.SuspendedStep? {
      DigestKeys(core, tables, step.value.snapshotBytes, PolicyEntry([], Limits(None, None, None, None, None)));
    }
    GrownFrom(tables);
  }

  lemma GrownFrom(tables: Tables)
    ensures Grown(tables, tables)
  {
  }

  lemma StartKeeps(core: Core, tables: Tables, request: Request, draw: Draw)
    requires Faithful(core) && WellKeyed(core, tables) && request.Start?
    ensures var after := RespondStart(core, tables, request, draw);
      WellKeyed(core, after.tables) && Grown(tables, after.tables) && Resolvable(after.tables, after.response)
  {
    hide WellKeyed, Grown, Faithful, ProgramMeant;
    GrownFrom(tables);
    match ProgramMeant(core, tables, request.programId, request.programBytes)
    case None =>
    case Some(program) =>
      var policy := PolicyEntry(request.options.capabilities, request.options.limits);
      var known := AddProgram(core, tables, program);
      DigestKeys(core, tables, program, policy);
      if core.decode(program).Some? {
        DigestKeys(core, known, program, policy);
        var ready := AddPolicy(core, known, policy);
        var step := StartFromBytes(core, program, request.options, draw);
        DeliverKeeps(core, ready, request.id, step, PolicyKey(core, policy));
        GrownTwice(tables, known, ready);
        GrownTwice(tables, ready, Deliver(core, ready, request.id, step, PolicyKey(core, policy)).tables);
      }
  }

  lemma RememberKeeps(core: Core, tables: Tables, request: Request)
    requires Faithful(core) && WellKeyed(core, tables) && request.ResumeRequest?
    ensures var after := RememberPolicy(core, tables, request);
      && WellKeyed(core, after) && Grown(tables, after)
      && after.programs == tables.programs && after.snapshots == tables.snapshots
      && forall snapshotId ::
           PolicyMeant(tables, request, snapshotId).Some? ==>
             var policyId := PolicyIdMeant(core, request, PolicyMeant(tables, request, snapshotId).value);
             policyId.Some? ==> policyId.value in after.policies
  {
    if request.policy.Some? && request.policy.value.limits.Some? {
      DigestKeys(core, tables, [], PolicyEntry(request.policy.value.capabilities, request.policy.value.limits.value));
    }
  }

  lemma ResumeKeeps(core: Core, tables: Tables, request: Request, draw: Draw)
    requires Faithful(core) && WellKeyed(core, tables) && request.ResumeRequest?
    ensures var after := RespondResume(core, tables, request, draw);
      WellKeyed(core, after.tables) && Grown(tables, after.tables) && Resolvable(after.tables, after.response)
  {
    hide WellKeyed, Grown, Faithful, PolicyMeant, PolicyIdMeant, RememberPolicy, Authenticated;
    GrownFrom(tables);
    RememberKeeps(core, tables, request);
    var after := RespondResume(core, tables, request, draw);
    var remembered := RememberPolicy(core, tables, request);
    if after.response.StepResponse? {
      var bytes := SnapshotMeant(core, tables, request.snapshotId, request.snapshotBytes).value;
      var snapshotId := if request.snapshotBytes.Some? then core.digest(bytes) else request.snapshotId.value;
      var policy := PolicyMeant(tables, request, snapshotId).value;
      var policyId := PolicyIdMeant(core, request, policy).value;
      var ready := AddSnapshot(core, remembered, bytes);
      DigestKeys(core, remembered, bytes, PolicyEntry([], Limits(None, None, None, None, None)));
      DeliverKeeps(core, ready, request.id, ResumeFromBytes(core, bytes, request.payload, policy, draw), policyId);
      GrownTwice(tables, remembered, ready);
      GrownTwice(tables, ready, after.tables);
    } else {
      RefusedResumeKeeps(core, tables, request, draw);
    }
  }

  lemma RefusedResumeKeeps(core: Core, tables: Tables, request: Request, draw: Draw)
    requires Faithful(core) && WellKeyed(core, tables) && request.ResumeRequest?
    requires RespondResume(core, tables, request, draw).response.Refused?
    ensures var after := RespondResume(core, tables, request, draw); WellKeyed(core, after.tables) && Grown(tables, after.tables)
  {
    hide WellKeyed, Grown, Faithful, SnapshotMeant, PolicyMeant, PolicyIdMeant, RememberPolicy, Authenticated, Visible;
    GrownFrom(tables);
    RememberKeeps(core, tables, request);
    var remembered := RememberPolicy(core, tables, request);
    var bytes := SnapshotMeant(core, tables, request.snapshotId, request.snapshotBytes);
    if bytes.Some? {
      DigestKeys(core, remembered, bytes.value, PolicyEntry([], Limits(None, None, None, None, None)));
      GrownTwice(tables, remembered, AddSnapshot(core, remembered, bytes.value));
    }
  }

  /** Every request keeps keys equal to digests, keeps everything in the tables as it was, and names
      only what can be looked up. */
  lemma RespondKeeps(core: Core, tables: Tables, request: Request, draw: Draw)
    requires Faithful(core) && WellKeyed(core, tables)
    ensures var after := Respond(core, tables, request, draw);
      WellKeyed(core, after.tables) && Grown(tables, after.tables) && Resolvable(after.tables, after.response)
  {
    hide WellKeyed, Grown, Faithful, RespondStart, RespondResume;
    GrownFrom(tables);
    if request.protocolVersion == PROTOCOL_VERSION {
      match request
      case Compile(_, _, source) =>
        if core.compile(source).Some? {
          DigestKeys(core, tables, core.compile(source).value, PolicyEntry([], Limits(None, None, None, None, None)));
        }
      case Start(_, _, _, _, _) => StartKeeps(core, tables, request, draw);
      case ResumeRequest(_, _, _, _, _, _, _, _) => ResumeKeeps(core, tables, request, draw);
    }
  }

  // ------------------------------------------------------------------ whole runs

  lemma {:induction false} RunKeeps(core: Core, tables: Tables, history: seq<Handled>)
    requires Faithful(core) && WellKeyed(core, tables)
    ensures WellKeyed(core, RunAll(core, tables, history)) && Grown(tables, RunAll(core, tables, history))
    decreases |history|
  {
    hide WellKeyed, Grown, Faithful, Respond;
    GrownFrom(tables);
    if history != [] {
      var n := |history| - 1;
      var before := RunAll(core, tables, history[..n]);
      RunKeeps(core, tables, history[..n]);
      RespondKeeps(core, before, history[n].request, history[n].draw);
      GrownTwice(tables, before, RunAll(core, tables, history));
    }
  }

  lemma {:induction false} RunSplits(core: Core, tables: Tables, first: seq<Handled>, second: seq<Handled>)
    ensures RunAll(core, tables, first + second) == RunAll(core, RunAll(core, tables, first), second)
    decreases |second|
  {
    if second == [] {
      assert first + second == first;
    } else {
      var n := |second| - 1;
      assert (first + second)[..|first + second| - 1] == first + second[..n];
      RunSplits(core, tables, first, second[..n]);
    }
  }

  /** Whatever a response named can be looked up, with the same content, after any further requests. */
  lemma NamedIdsStayResolvable(core: Core, before: seq<Handled>, last: Handled, after: seq<Handled>)
    requires Faithful(core)
    ensures var response := Respond(core, RunAll(core, EMPTY, before), last.request, last.draw).response;
      Resolvable(RunAll(core, EMPTY, before + [last] + after), response)
  {
    hide Faithful, Respond;
    var tables := RunAll(core, EMPTY, before);
    var outcome := Respond(core, tables, last.request, last.draw);
    RunKeeps(core, EMPTY, before);
    RespondKeeps(core, tables, last.request, last.draw);
    assert (before + [last])[..|before|] == before;
    assert RunAll(core, EMPTY, before + [last]) == outcome.tables;
    RunSplits(core, EMPTY, before + [last], after);
    RunKeeps(core, outcome.tables, after);
  }

  // ------------------------------------------------------------------ replay

  lemma StartIsRepeatable(core: Core, tables: Tables, later: Tables, request: Request, first: Draw, draw: Draw)
    requires Faithful(core) && WellKeyed(core, tables) && WellKeyed(core, later) && Grown(tables, later) && request.Start?
    requires !RespondStart(core, tables, request, first).response.Refused?
    ensures RespondStart(core, later, request, draw).response == RespondStart(core, tables, request, draw).response
  {
    assert ProgramMeant(core, later, request.programId, request.programBytes)
        == ProgramMeant(core, tables, request.programId, request.programBytes);
  }

  lemma ResumeIsRepeatable(core: Core, tables: Tables, later: Tables, request: Request, first: Draw, draw: Draw)
    requires Faithful(core) && WellKeyed(core, tables) && WellKeyed(core, later) && Grown(tables, later) && request.ResumeRequest?
    requires !RespondResume(core, tables, request, first).response.Refused?
    ensures RespondResume(core, later, request, draw).response == RespondResume(core, tables, request, draw).response
  {
    hide Faithful, WellKeyed, Authenticated, PolicyIdMeant;
    var bytes := SnapshotMeant(core, tables, request.snapshotId, request.snapshotBytes).value;
    assert SnapshotMeant(core, later, request.snapshotId, request.snapshotBytes) == Some(bytes);
    var snapshotId := if request.snapshotBytes.Some? then core.digest(bytes) else request.snapshotId.value;
    assert PolicyMeant(later, request, snapshotId) == PolicyMeant(tables, request, snapshotId);
  }

  /** A request that was answered is answered, however often and however much later it is sent again, as it
      would have been then with what is drawn now: a snapshot is not used up by being resumed, and only
      what is drawn can change an answer. */
  lemma ReplayGivesTheSameStep(core: Core, before: seq<Handled>, request: Request, first: Draw, after: seq<Handled>, draw: Draw)
    requires Faithful(core)
    requires !Respond(core, RunAll(core, EMPTY, before), request, first).response.Refused?
    ensures Respond(core, RunAll(core, EMPTY, before + [Handled(request, first)] + after), request, draw).response
         == Respond(core, RunAll(core, EMPTY, before), request, draw).response
  {
    hide Faithful, RespondStart, RespondResume;
    var tables, rest := RunAll(core, EMPTY, before), [Handled(request, first)] + after;
    RunKeeps(core, EMPTY, before);
    RunSplits(core, EMPTY, before, rest);
    assert before + rest == before + [Handled(request, first)] + after;
    var later := RunAll(core, EMPTY, before + [Handled(request, first)] + after);
    RunKeeps(core, tables, rest);
    match request
    case Compile(_, _, _) =>
    case Start(_, _, _, _, _) => StartIsRepeatable(core, tables, later, request, first, draw);
    case ResumeRequest(_, _, _, _, _, _, _, _) => ResumeIsRepeatable(core, tables, later, request, first, draw);
  }

  // ------------------------------------------------------------------ what a draw changes

  predicate SuspendedResponse(response: Response) {
    response.StepResponse? && response.step.SuspendedStep?
  }

  /** A response without the snapshot and its name. */
  function UnmarkedResponse(response: Response): Response {
    if SuspendedResponse(response) then response.(step := response.step.(snapshotBytes := []), snapshotId := None) else response
  }

  /** What responses to one request show of the numbers drawn for them: a suspension, and nothing else, has
      another snapshot with another id. */
  predicate DifferByNonce(a: Response, b: Response, nonce: nat, nonce': nat) {
    && UnmarkedResponse(a) == UnmarkedResponse(b)
    && (a == b <==> (SuspendedResponse(a) ==> nonce == nonce'))
    && (SuspendedResponse(a) && nonce != nonce' ==> a.step.snapshotBytes != b.step.snapshotBytes && a.snapshotId != b.snapshotId)
  }

  lemma DeliveredMarks(core: Core, tables: Tables, id: nat, step: Option<VisibleStep>, step': Option<VisibleStep>,
                       policyId: string, nonce: nat, nonce': nat)
    requires Faithful(core) && Unmarked(step) == Unmarked(step') && MarkedWith(core, step, nonce) && MarkedWith(core, step', nonce')
    requires nonce == nonce' ==> step == step'
    ensures DifferByNonce(Deliver(core, tables, id, step, policyId).response, Deliver(core, tables, id, step', policyId).response,
                          nonce, nonce')
  {
    hide ActsAs;
  }

  lemma StartMarks(core: Core, tables: Tables, request: Request, d: Draw, d': Draw)
    requires Faithful(core) && NoncesMark(core) && d.chance == d'.chance && request.Start?
    ensures DifferByNonce(RespondStart(core, tables, request, d).response, RespondStart(core, tables, request, d').response,
                          d.nonce, d'.nonce)
  {
    hide Faithful, StartFromBytes, ResumeFromBytes, Deliver;
    var program := ProgramMeant(core, tables, request.programId, request.programBytes);
    if program.Some? && core.decode(program.value).Some? {
      var policy := PolicyEntry(request.options.capabilities, request.options.limits);
      DeliveredMarks(core, AddPolicy(core, AddProgram(core, tables, program.value), policy), request.id,
                     StartFromBytes(core, program.value, request.options, d),
                     StartFromBytes(core, program.value, request.options, d'), PolicyKey(core, policy), d.nonce, d'.nonce);
    }
  }

  lemma ResumeMarks(core: Core, tables: Tables, request: Request, d: Draw, d': Draw)
    requires Faithful(core) && NoncesMark(core) && d.chance == d'.chance && request.ResumeRequest?
    ensures DifferByNonce(RespondResume(core, tables, request, d).response, RespondResume(core, tables, request, d').response,
                          d.nonce, d'.nonce)
  {
    hide Faithful, StartFromBytes, ResumeFromBytes, Deliver, Authenticated, PolicyMeant, PolicyIdMeant, RememberPolicy;
    var bytes := SnapshotMeant(core, tables, request.snapshotId, request.snapshotBytes);
    if bytes.Some? {
      var snapshotId := if request.snapshotBytes.Some? then core.digest(bytes.value) else request.snapshotId.value;
      var policy := PolicyMeant(tables, request, snapshotId);
      if policy.Some? && PolicyIdMeant(core, request, policy.value).Some? {
        DeliveredMarks(core, AddSnapshot(core, RememberPolicy(core, tables, request), bytes.value), request.id,
                       ResumeFromBytes(core, bytes.value, request.payload, policy.value, d),
                       ResumeFromBytes(core, bytes.value, request.payload, policy.value, d'),
                       PolicyIdMeant(core, request, policy.value).value, d.nonce, d'.nonce);
      }
    }
  }

  /** Two draws that differ in the number alone make a difference exactly to a suspension, and there to
      nothing but the bytes of the snapshot and its id. */
  lemma NoncesNameSnapshots(core: Core, tables: Tables, request: Request, d: Draw, d': Draw)
    requires Faithful(core) && NoncesMark(core) && d.chance == d'.chance
    ensures DifferByNonce(Respond(core, tables, request, d).response, Respond(core, tables, request, d').response, d.nonce, d'.nonce)
  {
    hide Faithful, NoncesMark, RespondStart, RespondResume;
    match request
    case Compile(_, _, _) =>
    case Start(_, _, _, _, _) => StartMarks(core, tables, request, d, d');
    case ResumeRequest(_, _, _, _, _, _, _, _) => ResumeMarks(core, tables, request, d, d');
  }

  /** Sent again later, a request that was answered gets that answer, but for the snapshot of a suspension. */
  lemma ReplayDiffersByNonce(core: Core, before: seq<Handled>, request: Request, first: Draw, after: seq<Handled>, draw: Draw)
    requires Faithful(core) && NoncesMark(core) && first.chance == draw.chance
    requires !Respond(core, RunAll(core, EMPTY, before), request, first).response.Refused?
    ensures DifferByNonce(Respond(core, RunAll(core, EMPTY, before), request, first).response,
                          Respond(core, RunAll(core, EMPTY, before + [Handled(request, first)] + after), request, draw).response,
                          first.nonce, draw.nonce)
  {
    hide Faithful, NoncesMark, Respond, RunAll;
    ReplayGivesTheSameStep(core, before, request, first, after, draw);
    NoncesNameSnapshots(core, RunAll(core, EMPTY, before), request, first, draw);
  }

  /** Where every request draws another number, no two suspensions are given one id. */
  lemma SnapshotIdsAreFresh(core: Core, history: seq<Handled>, i: nat, k: nat)
    requires Faithful(core) && NoncesMark(core) && i < k < |history| && history[i].draw.nonce != history[k].draw.nonce
    ensures var a, b := ResponseAt(core, EMPTY, history, i), ResponseAt(core, EMPTY, history, k);
      SuspendedResponse(a) && SuspendedResponse(b) ==>
        a.step.snapshotBytes != b.step.snapshotBytes && a.snapshotId != b.snapshotId
  {
    hide Faithful, NoncesMark, Respond;
    SuspensionIsMarked(core, RunAll(core, EMPTY, history[..i]), history[i].request, history[i].draw);
    SuspensionIsMarked(core, RunAll(core, EMPTY, history[..k]), history[k].request, history[k].draw);
    DigestsDiffer(core);
  }

  lemma DigestsDiffer(core: Core)
    requires Faithful(core)
    ensures forall a, b :: core.digest(a) == core.digest(b) ==> a == b
  {
  }

  lemma SuspensionIsMarked(core: Core, tables: Tables, request: Request, draw: Draw)
    requires NoncesMark(core)
    ensures var response := Respond(core, tables, request, draw).response;
      SuspendedResponse(response) ==>
        core.nonceOf(response.step.snapshotBytes) == draw.nonce && response.snapshotId == Some(core.digest(response.step.snapshotBytes))
  {
  }

  /** The response to the `i`-th of a run of requests. */
  function ResponseAt(core: Core, tables: Tables, history: seq<Handled>, i: nat): Response
    requires i < |history|
  {
    Respond(core, RunAll(core, tables, history[..i]), history[i].request, history[i].draw).response
  }

  // ------------------------------------------------------------------ transparency

  /** The same request with the ids it relies on spelled out in full. */
  function Filled(core: Core, tables: Tables, request: Request): Request {
    match request
    case Compile(_, _, _) => request
    case Start(_, _, programId, _, _) =>
      if programId.Some? && programId.value in tables.programs
      then request.(programBytes := Some(tables.programs[programId.value])) else request
    case ResumeRequest(_, _, snapshotId, snapshotBytes, policy, _, _, _) =>
      match SnapshotMeant(core, tables, snapshotId, snapshotBytes)
      case None => request
      case Some(bytes) =>
        var meant := PolicyMeant(tables, request, core.digest(bytes));
        request.(snapshotBytes := Some(bytes), policy := if policy.None? then meant else policy)
  }

  /** A policy sent with a bare snapshot id names that snapshot. */
  predicate PolicyAgrees(request: Request) {
    request.ResumeRequest? && request.snapshotBytes.None? && request.policy.Some?
    ==> request.policy.value.snapshotId == request.snapshotId
  }

  lemma StartTransparent(core: Core, tables: Tables, request: Request, draw: Draw)
    requires Faithful(core) && WellKeyed(core, tables) && request.Start?
    ensures RespondStart(core, tables, request, draw).response == RespondStart(core, EMPTY, Filled(core, tables, request), draw).response
  {
    var full := Filled(core, tables, request);
    assert ProgramMeant(core, EMPTY, full.programId, full.programBytes)
        == ProgramMeant(core, tables, request.programId, request.programBytes);
  }

  lemma ResumeTransparent(core: Core, tables: Tables, request: Request, draw: Draw)
    requires Faithful(core) && WellKeyed(core, tables) && request.ResumeRequest?
    ensures var cached, inFull :=
        RespondResume(core, tables, request, draw).response, RespondResume(core, EMPTY, Filled(core, tables, request), draw).response;
      && (PolicyAgrees(request) ==> cached == inFull)
      && (!PolicyAgrees(request) ==> inFull == Refused(request.id))
  {
    hide Faithful, Authenticated, ResumeFromBytes;
    var full := Filled(core, tables, request);
    var bytes := SnapshotMeant(core, tables, request.snapshotId, request.snapshotBytes);
    if bytes.Some? {
      var id := core.digest(bytes.value);
      assert request.snapshotBytes.None? ==> id == request.snapshotId.value;
      assert SnapshotMeant(core, EMPTY, full.snapshotId, full.snapshotBytes) == bytes;
      var meant := PolicyMeant(tables, request, id);
      assert PolicyMeant(EMPTY, full, id) == meant;
      if meant.Some? {
        assert PolicyIdMeant(core, full, meant.value) == PolicyIdMeant(core, request, meant.value);
      }
    }
  }

  /** A resume with a full policy and a bare snapshot id. */
  predicate SendsBareId(request: Request) {
    request.ResumeRequest? && request.snapshotBytes.None? && request.policy.Some?
  }

  /** Everything the session asks of such a request, except that its policy name the snapshot. */
  predicate Acceptable(core: Core, tables: Tables, request: Request, draw: Draw)
    requires SendsBareId(request)
  {
    var policy := request.policy.value;
    && request.protocolVersion == PROTOCOL_VERSION
    && request.snapshotId.Some? && request.snapshotId.value in tables.snapshots
    && policy.limits.Some?
    && (request.policyId.Some? ==> request.policyId.value == PolicyKey(core, PolicyEntry(policy.capabilities, policy.limits.value)))
    && Authenticated(core, request.snapshotId.value, policy)
    && ResumeFromBytes(core, tables.snapshots[request.snapshotId.value], request.payload, policy, draw).Some?
  }

  /** The session answers it exactly then, with a step; the same request in full is refused exactly when
      the policy names another snapshot. */
  lemma BareIdIsAnswered(core: Core, tables: Tables, request: Request, draw: Draw)
    requires Faithful(core) && WellKeyed(core, tables) && SendsBareId(request)
    ensures var cached, inFull :=
        Respond(core, tables, request, draw).response, Respond(core, EMPTY, Filled(core, tables, request), draw).response;
      && (Acceptable(core, tables, request, draw) ==>
            cached.StepResponse? && (inFull.Refused? <==> request.policy.value.snapshotId != request.snapshotId))
      && (!Acceptable(core, tables, request, draw) ==> cached == Refused(request.id))
  {
    hide Faithful, Authenticated, Filled;
    FilledKeeps(core, tables, request);
    ResumeTransparent(core, tables, request, draw);
    if Acceptable(core, tables, request, draw) {
      assert tables.snapshots[request.snapshotId.value] == SnapshotMeant(core, tables, request.snapshotId, None).value;
    }
  }

  lemma FilledKeeps(core: Core, tables: Tables, request: Request)
    requires request.ResumeRequest?
    ensures var full := Filled(core, tables, request); full.ResumeRequest? && full.protocolVersion == request.protocolVersion
  {
  }

  /** Caching cannot be noticed: after any history a request gets the response a fresh session gives, with
      the same draw, to the same request in full, with one exception: a bare snapshot id with a policy that names another
      snapshot and is otherwise acceptable. */
  lemma CachesAreInvisible(core: Core, history: seq<Handled>, request: Request, draw: Draw)
    requires Faithful(core)
    ensures var tables := RunAll(core, EMPTY, history);
      Respond(core, tables, request, draw).response == Respond(core, EMPTY, Filled(core, tables, request), draw).response
      <==> !(SendsBareId(request) && request.policy.value.snapshotId != request.snapshotId && Acceptable(core, tables, request, draw))
  {
    hide Faithful, RespondStart, RespondResume, Acceptable;
    var tables := RunAll(core, EMPTY, history);
    RunKeeps(core, EMPTY, history);
    match request
    case Compile(_, _, _) =>
    case Start(_, _, _, _, _) => StartTransparent(core, tables, request, draw);
    case ResumeRequest(_, _, _, _, _, _, _, _) =>
      ResumeTransparent(core, tables, request, draw);
      RefusalNamesTheRequest(core, tables, request, draw);
      if SendsBareId(request) {
        BareIdIsAnswered(core, tables, request, draw);
      }
  }

  lemma RefusalNamesTheRequest(core: Core, tables: Tables, request: Request, draw: Draw)
    requires request.ResumeRequest?
    ensures var response := RespondResume(core, tables, request, draw).response; response.Refused? ==> response.id == request.id
  {
  }

  /** Bytes that do not match the program id they come with refuse a start exactly when the id is not
      known.  For a known id they make no difference: the start is answered exactly when the known
      program starts. */
  lemma MismatchedProgramBytes(core: Core, tables: Tables, request: Request, draw: Draw)
    requires request.Start? && request.protocolVersion == PROTOCOL_VERSION
    requires request.programId.Some? && request.programBytes.Some?
    requires request.programId.value != core.digest(request.programBytes.value)
    ensures request.programId.value !in tables.programs ==> Respond(core, tables, request, draw) == Outcome(tables, Refused(request.id))
    ensures request.programId.value in tables.programs ==>
      && Respond(core, tables, request, draw) == Respond(core, tables, request.(programBytes := None), draw)
      && (Respond(core, tables, request, draw).response.StepResponse? <==>
            StartFromBytes(core, tables.programs[request.programId.value], request.options, draw).Some?)
  {
    hide Visible;
    assert request.programId.value in tables.programs ==>
      ProgramMeant(core, tables, request.programId, None) == ProgramMeant(core, tables, request.programId, request.programBytes);
  }
}

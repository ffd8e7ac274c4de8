/**
 Which requests a sidecar session answers, and with what, said of what a request carries and what the tables
 hold (crates/mustard-sidecar/src/lib.rs:276-316 and 589-908).
 */
module SidecarAnswers {
  import opened Wrappers
  import opened StructuredValues
  import opened BoundaryMessages
  import opened SidecarTables
  import opened SidecarTheorems

  // ------------------------------------------------------------------ what a resume means

  /** The snapshot, policy and key of a resume, and the id of the policy. */
  datatype Resumption = Resumption(bytes: Content, policy: Policy, policyId: string, key: Content)

  /** Bytes that came with the request, under their own id if one was sent, or those the tables have for it. */
  predicate MeansSnapshot(core: Core, tables: Tables, request: Request, bytes: Content)
    requires request.ResumeRequest?
  {
    if request.snapshotBytes.Some? then
      request.snapshotBytes == Some(bytes) && (request.snapshotId.Some? ==> request.snapshotId.value == core.digest(bytes))
    else
      request.snapshotId.Some? && request.snapshotId.value in tables.snapshots && tables.snapshots[request.snapshotId.value] == bytes
  }

  /** The policy that came with the request, complete, under its own id if one was sent, and naming the snapshot
      if that came with the request too. */
  predicate BringsPolicy(core: Core, request: Request, r: Resumption)
    requires request.ResumeRequest?
  {
    && request.policy == Some(r.policy) && r.policy.limits.Some?
    && r.policyId == core.digest(core.policySeed(r.policy.capabilities, r.policy.limits.value))
    && (request.policyId.Some? ==> request.policyId.value == r.policyId)
    && (request.snapshotBytes.Some? ==> r.policy.snapshotId == Some(core.digest(r.bytes)))
  }

  /** The policy that was registered under the id of the request, with the key and token the request brings. */
  predicate NamesPolicy(core: Core, tables: Tables, request: Request, r: Resumption)
    requires request.ResumeRequest?
  {
    && request.policy.None? && request.policyId == Some(r.policyId) && r.policyId in tables.policies && request.auth.Some?
    && r.policy.capabilities == tables.policies[r.policyId].capabilities
    && r.policy.limits == Some(tables.policies[r.policyId].limits)
    && r.policy.snapshotId == Some(core.digest(r.bytes))
    && r.policy.snapshotKeyBase64 == Some(request.auth.value.snapshotKeyBase64)
    && r.policy.snapshotKeyDigest == Some(request.auth.value.snapshotKeyDigest)
    && r.policy.snapshotToken == Some(request.auth.value.snapshotToken)
  }

  /** The key that was sent is the one whose digest was sent, and the token that was sent is its token for the
      snapshot. */
  predicate TokenFits(core: Core, request: Request, bytes: Content, key: Content)
    requires request.ResumeRequest?
  {
    if request.policy.Some? then
      var policy := request.policy.value;
      && policy.snapshotKeyBase64.Some? && core.decodeBase64(policy.snapshotKeyBase64.value) == Some(key)
      && policy.snapshotKeyDigest == Some(core.digest(key))
      && policy.snapshotToken == Some(core.token(core.digest(bytes), key))
    else
      && request.auth.Some? && core.decodeBase64(request.auth.value.snapshotKeyBase64) == Some(key)
      && request.auth.value.snapshotKeyDigest == core.digest(key)
      && request.auth.value.snapshotToken == core.token(core.digest(bytes), key)
  }

  predicate Authorised(core: Core, tables: Tables, request: Request, r: Resumption)
    requires request.ResumeRequest?
  {
    && request.protocolVersion == 2
    && MeansSnapshot(core, tables, request, r.bytes)
    && (BringsPolicy(core, request, r) || NamesPolicy(core, tables, request, r))
    && TokenFits(core, request, r.bytes, r.key)
  }

  /** A step as it is answered: a suspension names the policy and its snapshot. */
  function StepAnswer(core: Core, id: nat, step: Option<VisibleStep>, policyId: string): Response {
    match step
    case None => Refused(id)
    case Some(CompletedStep(_)) => StepResponse(id, step.value, None, None)
    case Some(SuspendedStep(_, _, bytes)) => StepResponse(id, step.value, Some(core.digest(bytes)), Some(policyId))
  }

  /** The one resumption a request can mean, when its guards let it through. */
  lemma GuardsPass(core: Core, tables: Tables, request: Request, draw: Draw, r: Resumption)
    requires WellKeyed(core, tables) && request.ResumeRequest? && Authorised(core, tables, request, r)
    ensures Respond(core, tables, request, draw).response ==
      StepAnswer(core, request.id, ResumeFromBytes(core, r.bytes, request.payload, r.policy, draw), r.policyId)
  {
    hide ResumeFromBytes;
    assert SnapshotMeant(core, tables, request.snapshotId, request.snapshotBytes) == Some(r.bytes);
    var snapshotId := if request.snapshotBytes.Some? then core.digest(r.bytes) else request.snapshotId.value;
    assert snapshotId == core.digest(r.bytes);
    assert PolicyMeant(tables, request, snapshotId) == Some(r.policy);
    assert PolicyIdMeant(core, request, r.policy) == Some(r.policyId);
    LoadedOrNot(core, r.bytes, request.payload, r.policy, draw);
  }

  lemma LoadedOrNot(core: Core, bytes: Content, payload: Resume, policy: Policy, draw: Draw)
    ensures core.load(bytes).None? ==> ResumeFromBytes(core, bytes, payload, policy, draw).None?
  {
  }

  /** Every request that is not refused passed its guards. */
  lemma GuardsPassed(core: Core, tables: Tables, request: Request, draw: Draw) returns (r: Resumption)
    requires WellKeyed(core, tables) && request.ResumeRequest? && !Respond(core, tables, request, draw).response.Refused?
    ensures Authorised(core, tables, request, r)
  {
    hide ResumeFromBytes;
    var bytes := SnapshotMeant(core, tables, request.snapshotId, request.snapshotBytes).value;
    var snapshotId := if request.snapshotBytes.Some? then core.digest(bytes) else request.snapshotId.value;
    assert snapshotId == core.digest(bytes);
    var policy := PolicyMeant(tables, request, snapshotId).value;
    var policyId := PolicyIdMeant(core, request, policy).value;
    r := Resumption(bytes, policy, policyId, core.decodeBase64(policy.snapshotKeyBase64.value).value);
    assert MeansSnapshot(core, tables, request, bytes);
    assert TokenFits(core, request, bytes, r.key);
    if request.policy.Some? {
      assert policyId == core.digest(core.policySeed(policy.capabilities, policy.limits.value));
      assert BringsPolicy(core, request, r);
    } else {
      assert NamesPolicy(core, tables, request, r);
    }
  }

  /** A resume is answered with a step exactly when it is authorised and the machine, resumed from the snapshot
      it means under the policy it means, takes one; and with that very step. */
  lemma ResumeIsAnsweredExactly(core: Core, tables: Tables, request: Request, draw: Draw)
    requires WellKeyed(core, tables) && request.ResumeRequest?
    ensures var response := Respond(core, tables, request, draw).response;
      && (response.Refused? || response.StepResponse?) && response.id == request.id
      && (response.StepResponse? ==> exists r :: Authorised(core, tables, request, r))
      && (forall r :: Authorised(core, tables, request, r) ==>
            response == StepAnswer(core, request.id, ResumeFromBytes(core, r.bytes, request.payload, r.policy, draw), r.policyId))
  {
    hide ResumeFromBytes, Respond, WellKeyed;
    KindOfAnswer(core, tables, request, draw);
    if !Respond(core, tables, request, draw).response.Refused? {
      var r := GuardsPassed(core, tables, request, draw);
    }
    forall r | Authorised(core, tables, request, r)
      ensures Respond(core, tables, request, draw).response ==
        StepAnswer(core, request.id, ResumeFromBytes(core, r.bytes, request.payload, r.policy, draw), r.policyId)
    {
      GuardsPass(core, tables, request, draw, r);
    }
  }

  lemma KindOfAnswer(core: Core, tables: Tables, request: Request, draw: Draw)
    ensures var response := Respond(core, tables, request, draw).response;
      response.id == request.id && (response.ProgramResponse? ==> request.Compile?)
  {
    hide StartFromBytes, ResumeFromBytes, Authenticated;
  }

  /** Over every run: a resume that is answered with a step carries the token of the snapshot it resumes under
      the key it carries, and the digest of that key. */
  lemma AnsweredResumesCarryTheirToken(core: Core, history: seq<Handled>, request: Request, draw: Draw)
    requires Faithful(core) && request.ResumeRequest?
    requires Respond(core, RunAll(core, EMPTY, history), request, draw).response.StepResponse?
    ensures exists r: Resumption :: MeansSnapshot(core, RunAll(core, EMPTY, history), request, r.bytes) && TokenFits(core, request, r.bytes, r.key)
  {
    hide Faithful, WellKeyed, Respond, RunAll;
    EmptyIsWellKeyed(core);
    RunKeeps(core, EMPTY, history);
    var r := GuardsPassed(core, RunAll(core, EMPTY, history), request, draw);
  }

  lemma EmptyIsWellKeyed(core: Core)
    ensures WellKeyed(core, EMPTY)
  {
  }

  // ------------------------------------------------------------------ what a start means

  /** The program the tables have for the id, or the bytes that came with the request, under their own id if one
      was sent. */
  predicate MeansProgram(core: Core, tables: Tables, request: Request, program: Content)
    requires request.Start?
  {
    if request.programId.Some? && request.programId.value in tables.programs then tables.programs[request.programId.value] == program
    else request.programBytes == Some(program) && (request.programId.Some? ==> request.programId.value == core.digest(program))
  }

  /** A start is answered with the first step of the program it means, with its own inputs, capabilities and
      limits, and registers these as the policy that a suspension names; it is refused when it means none. */
  lemma StartIsAnsweredExactly(core: Core, tables: Tables, request: Request, draw: Draw)
    requires request.Start? && request.protocolVersion == 2
    ensures var outcome := Respond(core, tables, request, draw);
      var policy := PolicyEntry(request.options.capabilities, request.options.limits);
      var policyId := core.digest(core.policySeed(request.options.capabilities, request.options.limits));
      && ((forall program :: !MeansProgram(core, tables, request, program)) ==> outcome.response == Refused(request.id))
      && (forall program :: MeansProgram(core, tables, request, program) ==>
            && outcome.response == StepAnswer(core, request.id, StartFromBytes(core, program, request.options, draw), policyId)
            && Find(outcome.tables.programs, core.digest(program)) == Some(program)
            && (outcome.response.StepResponse? ==> Find(outcome.tables.policies, policyId) == Some(policy)))
  {
    hide StartFromBytes;
    forall program | MeansProgram(core, tables, request, program)
      ensures ProgramMeant(core, tables, request.programId, request.programBytes) == Some(program)
    {
    }
    forall program ensures core.decode(program).None? ==> StartFromBytes(core, program, request.options, draw).None? {
      UndecodedOrNot(core, program, request.options, draw);
    }
    var meant := ProgramMeant(core, tables, request.programId, request.programBytes);
    if meant.Some? {
      assert MeansProgram(core, tables, request, meant.value);
    }
  }

  lemma UndecodedOrNot(core: Core, program: Content, options: StartOptions, draw: Draw)
    ensures core.decode(program).None? ==> StartFromBytes(core, program, options, draw).None?
  {
  }

  function Find<V>(m: map<string, V>, key: string): Option<V> {
    if key in m then Some(m[key]) else None
  }

  /** A compile request is answered with what the compiler gives, under its digest. */
  lemma CompileIsAnsweredExactly(core: Core, tables: Tables, request: Request, draw: Draw)
    requires request.Compile? && request.protocolVersion == 2
    ensures var outcome := Respond(core, tables, request, draw);
      match core.compile(request.source)
      case None => outcome == Outcome(tables, Refused(request.id))
      case Some(bytes) =>
        && outcome.response == ProgramResponse(request.id, bytes, core.digest(bytes))
        && Find(outcome.tables.programs, core.digest(bytes)) == Some(bytes)
  {
  }

  /** A request of another protocol version is refused and leaves no trace. */
  lemma OtherVersionsAreRefused(core: Core, tables: Tables, request: Request, draw: Draw)
    requires request.protocolVersion != 2
    ensures Respond(core, tables, request, draw) == Outcome(tables, Refused(request.id))
  {
  }
}

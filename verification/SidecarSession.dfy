/**
 The session of crates/mustard-sidecar/src/lib.rs with its caches: programs decoded at most once and
 live snapshots that the next resume takes.  Every method is proved against `SidecarTables`.
 */
module SidecarSession {
  import opened Wrappers
  import opened StructuredValues
  import opened BoundaryMessages
  import opened SidecarTables
  import opened SidecarTheorems

  datatype ProgramEntry = ProgramEntry(bytes: Content, decoded: Option<Program>)
  datatype SnapshotEntry = SnapshotEntry(bytes: Content, live: Option<Snapshot>)

  class Session {
    const core: Core
    var programs: map<string, ProgramEntry>
    var snapshots: map<string, SnapshotEntry>
    var policies: map<string, PolicyEntry>

    /** The session without its caches. */
    ghost function Contents(): Tables
      reads this
    {
      Tables(map key | key in programs :: programs[key].bytes,
             map key | key in snapshots :: snapshots[key].bytes,
             policies)
    }

    /** Keys are digests, a decoded program is the decoding of its bytes and a live snapshot dumps to
        its bytes. */
    ghost predicate Valid()
      reads this
    {
      && Faithful(core) && WellKeyed(core, Contents())
      && (forall key :: key in programs && programs[key].decoded.Some? ==>
            core.decode(programs[key].bytes) == programs[key].decoded)
      && (forall key :: key in snapshots && snapshots[key].live.Some? ==>
            core.dump(snapshots[key].live.value) == Some(snapshots[key].bytes))
    }

    constructor (core: Core)
      requires Faithful(core)
      ensures Valid() && this.core == core && Contents() == EMPTY
    {
      this.core := core;
      programs, snapshots, policies := map[], map[], map[];
    }

    /** `ProgramEntry::resolve` on a stored entry. */
    method ResolveEntry(programId: string) returns (program: Option<Program>)
      requires Valid() && programId in programs
      modifies this`programs
      ensures Valid() && Contents() == old(Contents())
      ensures program == core.decode(old(programs[programId].bytes))
    {
      hide Faithful, WellKeyed;
      var entry := programs[programId];
      if entry.decoded.Some? {
        return entry.decoded;
      }
      program := core.decode(entry.bytes);
      if program.Some? {
        programs := programs[programId := entry.(decoded := program)];
        assert Contents().programs == old(Contents().programs);
      }
    }

    /** The program bytes are kept even when they do not decode. */
    method ResolveProgram(programId: Option<string>, programBytes: Option<Content>) returns (program: Option<Program>)
      requires Valid()
      modifies this`programs
      ensures Valid()
      ensures match ProgramMeant(core, old(Contents()), programId, programBytes)
              case None => program.None? && Contents() == old(Contents())
              case Some(bytes) =>
                program == core.decode(bytes) && Contents() == AddProgram(core, old(Contents()), bytes)
    {
      hide Faithful;
      if programId.Some? && programId.value in programs {
        KnownProgram(core, Contents(), programId.value);
        program := ResolveEntry(programId.value);
        return;
      }
      if programBytes.None? {
        return None;
      }
      var bytes := programBytes.value;
      var derivedProgramId := core.digest(bytes);
      if programId.Some? && programId.value != derivedProgramId {
        return None;
      }
      InsertProgram(derivedProgramId, bytes);
      program := ResolveEntry(derivedProgramId);
    }

    /** `entry(id).or_insert_with(...)`. */
    method InsertProgram(programId: string, bytes: Content)
      requires Valid() && programId == core.digest(bytes)
      modifies this`programs
      ensures Valid() && Contents() == AddProgram(core, old(Contents()), bytes)
      ensures programId in programs && programs[programId].bytes == bytes
    {
      hide Faithful;
      AddContent(core, Contents().programs, bytes);
      if programId in programs {
        KnownProgram(core, Contents(), programId);
        SameDigest(core, bytes, programs[programId].bytes);
      } else {
        programs := programs[programId := ProgramEntry(bytes, None)];
        assert Contents().programs == old(Contents().programs)[programId := bytes];
      }
    }

    method RegisterPolicy(capabilities: seq<string>, limits: Limits<nat>) returns (policyId: string)
      requires Valid()
      modifies this`policies
      ensures Valid() && policyId == PolicyKey(core, PolicyEntry(capabilities, limits))
      ensures Contents() == AddPolicy(core, old(Contents()), PolicyEntry(capabilities, limits))
    {
      hide Faithful;
      var entry := PolicyEntry(capabilities, limits);
      policyId := core.digest(core.policySeed(capabilities, limits));
      AddEntry(core, Contents(), entry);
      if policyId in policies {
        assert policies[policyId] == AddPolicy(core, Contents(), entry).policies[policyId];
        assert policies == policies[policyId := entry];
      } else {
        policies := policies[policyId := entry];
      }
    }

    /** The id a request means, and the bytes it brought. */
    method ResolveSnapshot(snapshotId: Option<string>, snapshotBytes: Option<Content>)
      returns (resolved: Option<(string, Option<Content>)>)
      requires Valid()
      ensures match SnapshotMeant(core, Contents(), snapshotId, snapshotBytes)
              case None => resolved.None?
              case Some(bytes) => resolved == Some((core.digest(bytes), snapshotBytes))
    {
      hide Faithful;
      if snapshotId.Some? && snapshotId.value in snapshots && snapshotBytes.None? {
        assert Contents().snapshots[snapshotId.value] == snapshots[snapshotId.value].bytes;
        return Some((snapshotId.value, None));
      }
      if snapshotBytes.None? {
        return None;
      }
      var derivedSnapshotId := core.digest(snapshotBytes.value);
      if snapshotId.Some? && snapshotId.value != derivedSnapshotId {
        return None;
      }
      return Some((derivedSnapshotId, snapshotBytes));
    }

    method ResolveResumePolicy(request: Request, snapshotId: string) returns (resolved: Option<(Policy, string)>)
      requires Valid() && request.ResumeRequest?
      modifies this`policies
      ensures Valid() && Contents() == RememberPolicy(core, old(Contents()), request)
      ensures match PolicyMeant(old(Contents()), request, snapshotId)
              case None => resolved.None?
              case Some(policy) =>
                resolved == match PolicyIdMeant(core, request, policy)
                            case None => None
                            case Some(policyId) => Some((policy, policyId))
    {
      hide Faithful, WellKeyed;
      if request.policy.Some? {
        var policy := request.policy.value;
        if policy.limits.None? {
          return None;
        }
        var registered := RegisterPolicy(policy.capabilities, policy.limits.value);
        if request.policyId.Some? && registered != request.policyId.value {
          return None;
        }
        return Some((policy, registered));
      }
      if request.policyId.None? || request.policyId.value !in policies || request.auth.None? {
        return None;
      }
      var entry, auth := policies[request.policyId.value], request.auth.value;
      var policy := Policy(entry.capabilities, Some(entry.limits), Some(auth.snapshotKeyBase64),
                           Some(auth.snapshotToken), Some(snapshotId), Some(auth.snapshotKeyDigest));
      return Some((policy, request.policyId.value));
    }

    /** Takes the live snapshot when there is one and loads the bytes otherwise: either way what comes
        back acts as the bytes do, and the bytes stay known. */
    method ResolveLiveSnapshot(snapshotId: string, inline: Option<Content>, ghost bytes: Content)
      returns (snapshot: Option<Snapshot>)
      requires Valid()
      requires snapshotId == core.digest(bytes) && (snapshotId in snapshots || inline.Some?)
      requires inline.Some? ==> inline.value == bytes
      modifies this`snapshots
      ensures Valid()
      ensures snapshot.Some? <==> core.load(bytes).Some?
      ensures snapshot.Some? ==> ActsAs(core, snapshot.value, bytes)
      ensures Contents() == if core.load(bytes).Some? then AddSnapshot(core, old(Contents()), bytes) else old(Contents())
    {
      hide Faithful, ActsAs;
      AddContent(core, Contents().snapshots, bytes);
      LoadedActs(core, bytes);
      if snapshotId in snapshots {
        var entry := snapshots[snapshotId];
        assert snapshotId == core.digest(Contents().snapshots[snapshotId]);
        SameDigest(core, bytes, entry.bytes);
        if entry.live.Some? {
          LiveActs(core, entry.live.value);
          snapshots := snapshots[snapshotId := entry.(live := None)];
          assert Contents().snapshots == old(Contents().snapshots)[snapshotId := bytes];
          return entry.live;
        }
        assert Contents().snapshots == Contents().snapshots[snapshotId := bytes];
        return core.load(entry.bytes);
      }
      snapshot := core.load(inline.value);
      if snapshot.Some? {
        snapshots := snapshots[snapshotId := SnapshotEntry(inline.value, None)];
        assert Contents().snapshots == old(Contents().snapshots)[snapshotId := bytes];
      }
    }

    method ResponseStep(id: nat, step: Option<Step>, policyId: string) returns (response: Response)
      requires Valid()
      modifies this`snapshots
      ensures Valid()
      ensures Outcome(Contents(), response) == Deliver(core, old(Contents()), id, Visible(core, step), policyId)
    {
      hide Faithful;
      match step {
        case None => return Refused(id);
        case Some(Completed(value)) => return StepResponse(id, CompletedStep(value), None, None);
        case Some(Suspended(capability, args, snapshot)) =>
          var dumped := core.dump(snapshot);
          if dumped.None? {
            return Refused(id);
          }
          var bytes := dumped.value;
          var snapshotId := core.digest(bytes);
          AddContent(core, Contents().snapshots, bytes);
          snapshots := snapshots[snapshotId := SnapshotEntry(bytes, Some(snapshot))];
          assert Contents().snapshots == old(Contents().snapshots)[snapshotId := bytes];
          return StepResponse(id, SuspendedStep(capability, args, bytes), Some(snapshotId), Some(policyId));
      }
    }

    method HandleCompile(id: nat, source: string) returns (response: Response)
      requires Valid()
      modifies this
      ensures Valid()
      ensures Outcome(Contents(), response) ==
        match core.compile(source)
        case None => Outcome(old(Contents()), Refused(id))
        case Some(bytes) => Outcome(AddProgram(core, old(Contents()), bytes), ProgramResponse(id, bytes, core.digest(bytes)))
    {
      var bytes := core.compile(source);
      if bytes.None? {
        return Refused(id);
      }
      var programId := core.digest(bytes.value);
      InsertProgram(programId, bytes.value);
      return ProgramResponse(id, bytes.value, programId);
    }

    method HandleStart(request: Request, draw: Draw) returns (response: Response)
      requires Valid() && request.Start?
      modifies this
      ensures Valid() && Outcome(Contents(), response) == RespondStart(core, old(Contents()), request, draw)
    {
      hide Faithful, WellKeyed, ProgramMeant, AddProgram, AddPolicy, Deliver;
      var program := ResolveProgram(request.programId, request.programBytes);
      if program.None? {
        return Refused(request.id);
      }
      var policyId := RegisterPolicy(request.options.capabilities, request.options.limits);
      response := ResponseStep(request.id, core.start(program.value, request.options, draw), policyId);
    }

    method HandleResume(request: Request, draw: Draw) returns (response: Response)
      requires Valid() && request.ResumeRequest?
      modifies this
      ensures Valid() && Outcome(Contents(), response) == RespondResume(core, old(Contents()), request, draw)
    {
      hide Faithful, WellKeyed, RememberPolicy, PolicyMeant, PolicyIdMeant, Deliver;
      ghost var before := Contents();
      var resolved := ResolveSnapshot(request.snapshotId, request.snapshotBytes);
      if resolved.None? {
        return Refused(request.id);
      }
      KnownSnapshots(core, before, request);
      var snapshotId, inline := resolved.value.0, resolved.value.1;
      var allowed := ResolveResumePolicy(request, snapshotId);
      if allowed.None? {
        return Refused(request.id);
      }
      var policy, policyId := allowed.value.0, allowed.value.1;
      if !Authenticated(core, snapshotId, policy) || (inline.Some? && policy.snapshotId != Some(snapshotId)) {
        return Refused(request.id);
      }
      RememberedSnapshots(core, before, request);
      ghost var bytes := SnapshotMeant(core, before, request.snapshotId, request.snapshotBytes).value;
      var snapshot := ResolveLiveSnapshot(snapshotId, inline, bytes);
      if snapshot.None? {
        return Refused(request.id);
      }
      response := ResponseStep(request.id, core.resume(snapshot.value, request.payload, policy, draw), policyId);
    }

    /** The session answers every request, and changes its tables, exactly as one without caches does with
        the same draw. */
    method Handle(request: Request, draw: Draw) returns (response: Response)
      requires Valid()
      modifies this
      ensures Valid() && Outcome(Contents(), response) == Respond(core, old(Contents()), request, draw)
    {
      hide Faithful, WellKeyed, RespondStart, RespondResume;
      if request.protocolVersion != PROTOCOL_VERSION {
        return Refused(request.id);
      }
      match request {
        case Compile(_, id, source) => response := HandleCompile(id, source);
        case Start(_, _, _, _, _) => response := HandleStart(request, draw);
        case ResumeRequest(_, _, _, _, _, _, _, _) => response := HandleResume(request, draw);
      }
    }
  }

  lemma SameDigest(core: Core, a: Content, b: Content)
    requires Faithful(core)
    ensures core.digest(a) == core.digest(b) ==> a == b
  {
  }

  lemma KnownProgram(core: Core, tables: Tables, programId: string)
    requires Faithful(core) && WellKeyed(core, tables) && programId in tables.programs
    ensures AddProgram(core, tables, tables.programs[programId]) == tables
    ensures core.digest(tables.programs[programId]) == programId
  {
    assert tables.programs[programId := tables.programs[programId]] == tables.programs;
  }

  lemma LoadedActs(core: Core, bytes: Content)
    ensures core.load(bytes).Some? ==> ActsAs(core, core.load(bytes).value, bytes)
  {
  }

  lemma LiveActs(core: Core, snapshot: Snapshot)
    requires Faithful(core) && core.dump(snapshot).Some?
    ensures core.load(core.dump(snapshot).value).Some? && ActsAs(core, snapshot, core.dump(snapshot).value)
  {
  }

  lemma KnownSnapshots(core: Core, tables: Tables, request: Request)
    requires WellKeyed(core, tables) && request.ResumeRequest?
    requires SnapshotMeant(core, tables, request.snapshotId, request.snapshotBytes).Some?
    ensures var bytes := SnapshotMeant(core, tables, request.snapshotId, request.snapshotBytes).value;
      request.snapshotBytes.None? ==>
        && request.snapshotId.value in tables.snapshots && tables.snapshots[request.snapshotId.value] == bytes
        && core.digest(bytes) == request.snapshotId.value
  {
  }

  lemma RememberedSnapshots(core: Core, tables: Tables, request: Request)
    requires request.ResumeRequest?
    ensures RememberPolicy(core, tables, request).snapshots == tables.snapshots
  {
  }
}

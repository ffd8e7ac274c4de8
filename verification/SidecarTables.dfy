/**
 What a sidecar session promises, stated without its caches.

 `Respond` answers a request from three tables that map each id to its full content; the session
 in `SidecarSession` keeps live snapshots and decoded programs besides and is proved to answer the
 same.  The virtual machine, SHA-256 and HMAC are the unknown functions of `Core`.

 What a request draws besides its input is explicit: each time one is handled it comes with a `Draw`.
 */
module SidecarTables {
  import opened Wrappers
  import opened StructuredValues
  import opened BoundaryMessages

  type Content = seq<byte>

  /** A decoded program and a suspended machine, each written as its state. */
  datatype Program = Program(state: seq<byte>)
  datatype Snapshot = Snapshot(state: seq<byte>)

  /** Whatever else a machine asks the process for: the clock, random numbers, the order a hash map is
      written in. */
  type Chance(!new, ==)

  /** What a machine draws while it handles a request: the number a suspension marks its snapshot with, which
      no other suspension of the process gets, and the rest. */
  datatype Draw = Draw(nonce: nat, chance: Chance)

  datatype Policy = Policy(
    capabilities: seq<string>,
    limits: Option<Limits<nat>>,
    snapshotKeyBase64: Option<string>,
    snapshotToken: Option<string>,
    snapshotId: Option<string>,
    snapshotKeyDigest: Option<string>)

  datatype Auth = Auth(snapshotKeyBase64: string, snapshotKeyDigest: string, snapshotToken: string)

  datatype Step =
    | Completed(value: StructuredValue)
    | Suspended(capability: string, args: seq<StructuredValue>, snapshot: Snapshot)

  /** Everything the session calls and this model does not look into; `None` is an error.  `nonceOf` is the
      number that dumped bytes are marked with. */
  datatype Core = Core(
    compile: string -> Option<Content>,
    decode: Content -> Option<Program>,
    start: (Program, StartOptions, Draw) -> Option<Step>,
    resume: (Snapshot, Resume, Policy, Draw) -> Option<Step>,
    dump: Snapshot -> Option<Content>,
    load: Content -> Option<Snapshot>,
    nonceOf: Content -> nat,
    digest: Content -> string,
    policySeed: (seq<string>, Limits<nat>) -> Content,
    decodeBase64: string -> Option<Content>,
    token: (string, Content) -> string)

  /** A step as the client sees it: the snapshot is its bytes. */
  datatype VisibleStep =
    | CompletedStep(value: StructuredValue)
    | SuspendedStep(capability: string, args: seq<StructuredValue>, snapshotBytes: Content)

  function Visible(core: Core, step: Option<Step>): Option<VisibleStep> {
    match step
    case None => None
    case Some(Completed(value)) => Some(CompletedStep(value))
    case Some(Suspended(capability, args, snapshot)) =>
      match core.dump(snapshot)
      case None => None
      case Some(bytes) => Some(SuspendedStep(capability, args, bytes))
  }

  /** Starting from program bytes, and resuming from snapshot bytes, with nothing cached. */
  function StartFromBytes(core: Core, program: Content, options: StartOptions, draw: Draw): Option<VisibleStep> {
    match core.decode(program)
    case None => None
    case Some(decoded) => Visible(core, core.start(decoded, options, draw))
  }

  function ResumeFromBytes(core: Core, snapshot: Content, payload: Resume, policy: Policy, draw: Draw): Option<VisibleStep> {
    match core.load(snapshot)
    case None => None
    case Some(loaded) => Visible(core, core.resume(loaded, payload, policy, draw))
  }

  /** A live snapshot that shows a client what its bytes would, whatever is drawn. */
  ghost predicate ActsAs(core: Core, snapshot: Snapshot, bytes: Content) {
    forall payload, policy, draw ::
      Visible(core, core.resume(snapshot, payload, policy, draw)) == ResumeFromBytes(core, bytes, payload, policy, draw)
  }

  /** A step without its snapshot. */
  function Unmarked(step: Option<VisibleStep>): Option<VisibleStep> {
    if step.Some? && step.value.SuspendedStep? then Some(step.value.(snapshotBytes := [])) else step
  }

  predicate MarkedWith(core: Core, step: Option<VisibleStep>, nonce: nat) {
    step.Some? && step.value.SuspendedStep? ==> core.nonceOf(step.value.snapshotBytes) == nonce
  }

  /** The number that is drawn marks the snapshot of a suspension, and nothing else shows it. */
  ghost predicate NoncesMark(core: Core) {
    && (forall program, options, draw :: MarkedWith(core, StartFromBytes(core, program, options, draw), draw.nonce))
    && (forall bytes, payload, policy, draw :: MarkedWith(core, ResumeFromBytes(core, bytes, payload, policy, draw), draw.nonce))
    && (forall program, options, d: Draw, d': Draw :: d.chance == d'.chance ==>
          Unmarked(StartFromBytes(core, program, options, d)) == Unmarked(StartFromBytes(core, program, options, d')))
    && (forall bytes, payload, policy, d: Draw, d': Draw :: d.chance == d'.chance ==>
          Unmarked(ResumeFromBytes(core, bytes, payload, policy, d)) == Unmarked(ResumeFromBytes(core, bytes, payload, policy, d')))
  }

  /** What is assumed of the unknown functions: digests and policy seeds do not collide, and dumped
      bytes can be loaded again and then act as the snapshot did. */
  ghost predicate Faithful(core: Core) {
    && (forall a, b :: core.digest(a) == core.digest(b) ==> a == b)
    && (forall c, l, c', l' :: core.policySeed(c, l) == core.policySeed(c', l') ==> c == c' && l == l')
    && (forall s :: core.dump(s).Some? ==> core.load(core.dump(s).value).Some? && ActsAs(core, s, core.dump(s).value))
  }

  // ------------------------------------------------------------------ requests and responses

  const PROTOCOL_VERSION: nat := 2

  datatype Request =
    | Compile(protocolVersion: nat, id: nat, source: string)
    | Start(protocolVersion: nat, id: nat, programId: Option<string>, programBytes: Option<Content>, options: StartOptions)
    | ResumeRequest(
        protocolVersion: nat, id: nat, snapshotId: Option<string>, snapshotBytes: Option<Content>,
        policy: Option<Policy>, policyId: Option<string>, auth: Option<Auth>, payload: Resume)

  datatype Response =
    | ProgramResponse(id: nat, programBytes: Content, programId: string)
    | StepResponse(id: nat, step: VisibleStep, snapshotId: Option<string>, policyId: Option<string>)
    | Refused(id: nat)

  /** A request as it is handled. */
  datatype Handled = Handled(request: Request, draw: Draw)

  datatype PolicyEntry = PolicyEntry(capabilities: seq<string>, limits: Limits<nat>)

  datatype Tables = Tables(
    programs: map<string, Content>, snapshots: map<string, Content>, policies: map<string, PolicyEntry>)

  const EMPTY: Tables := Tables(map[], map[], map[])

  datatype Outcome = Outcome(tables: Tables, response: Response)

  function PolicyKey(core: Core, entry: PolicyEntry): string {
    core.digest(core.policySeed(entry.capabilities, entry.limits))
  }

  // ------------------------------------------------------------------ the tables-only session

  /** The program bytes a start request means: a known id wins over bytes it comes with. */
  function ProgramMeant(core: Core, tables: Tables, programId: Option<string>, programBytes: Option<Content>): Option<Content> {
    if programId.Some? && programId.value in tables.programs then Some(tables.programs[programId.value])
    else if programBytes.Some? && (programId.Some? ==> programId.value == core.digest(programBytes.value)) then programBytes
    else None
  }

  /** The snapshot bytes a resume request means, and whether it brought them. */
  function SnapshotMeant(core: Core, tables: Tables, snapshotId: Option<string>,
                         snapshotBytes: Option<Content>): Option<Content> {
    if snapshotBytes.Some? then
      if snapshotId.Some? ==> snapshotId.value == core.digest(snapshotBytes.value) then snapshotBytes else None
    else if snapshotId.Some? && snapshotId.value in tables.snapshots then Some(tables.snapshots[snapshotId.value])
    else None
  }

  /** The policy a resume request means for a snapshot id. */
  function PolicyMeant(tables: Tables, request: Request, snapshotId: string): Option<Policy>
    requires request.ResumeRequest?
  {
    if request.policy.Some? then if request.policy.value.limits.Some? then request.policy else None
    else if request.policyId.Some? && request.policyId.value in tables.policies && request.auth.Some? then
      var entry, auth := tables.policies[request.policyId.value], request.auth.value;
      Some(Policy(entry.capabilities, Some(entry.limits), Some(auth.snapshotKeyBase64), Some(auth.snapshotToken),
                  Some(snapshotId), Some(auth.snapshotKeyDigest)))
    else None
  }

  /** `assert_authenticated_snapshot_id`. */
  predicate Authenticated(core: Core, snapshotId: string, policy: Policy) {
    && policy.snapshotKeyBase64.Some? && policy.snapshotToken.Some? && policy.snapshotKeyDigest.Some?
    && var key := core.decodeBase64(policy.snapshotKeyBase64.value);
    && key.Some?
    && core.digest(key.value) == policy.snapshotKeyDigest.value
    && core.token(snapshotId, key.value) == policy.snapshotToken.value
  }

  function AddProgram(core: Core, tables: Tables, bytes: Content): Tables {
    tables.(programs := tables.programs[core.digest(bytes) := bytes])
  }

  function AddSnapshot(core: Core, tables: Tables, bytes: Content): Tables {
    tables.(snapshots := tables.snapshots[core.digest(bytes) := bytes])
  }

  function AddPolicy(core: Core, tables: Tables, entry: PolicyEntry): Tables {
    tables.(policies := tables.policies[PolicyKey(core, entry) := entry])
  }

  /** A suspended step leaves its snapshot in the tables and names it. */
  function Deliver(core: Core, tables: Tables, id: nat, step: Option<VisibleStep>, policyId: string): Outcome {
    match step
    case None => Outcome(tables, Refused(id))
    case Some(CompletedStep(_)) => Outcome(tables, StepResponse(id, step.value, None, None))
    case Some(SuspendedStep(_, _, bytes)) =>
      Outcome(AddSnapshot(core, tables, bytes), StepResponse(id, step.value, Some(core.digest(bytes)), Some(policyId)))
  }

  function RespondStart(core: Core, tables: Tables, request: Request, draw: Draw): Outcome
    requires request.Start?
  {
    match ProgramMeant(core, tables, request.programId, request.programBytes)
    case None => Outcome(tables, Refused(request.id))
    case Some(program) =>
      var known := AddProgram(core, tables, program);
      if core.decode(program).None? then Outcome(known, Refused(request.id))
      else
        var policy := PolicyEntry(request.options.capabilities, request.options.limits);
        Deliver(core, AddPolicy(core, known, policy), request.id, StartFromBytes(core, program, request.options, draw),
                PolicyKey(core, policy))
  }

  /** A policy that comes with a request is remembered even if the request then fails. */
  function RememberPolicy(core: Core, tables: Tables, request: Request): Tables
    requires request.ResumeRequest?
  {
    if request.policy.Some? && request.policy.value.limits.Some? then
      AddPolicy(core, tables, PolicyEntry(request.policy.value.capabilities, request.policy.value.limits.value))
    else tables
  }

  /** The policy id of a request, when it has one it may use. */
  function PolicyIdMeant(core: Core, request: Request, policy: Policy): Option<string>
    requires request.ResumeRequest?
  {
    if request.policy.None? then request.policyId
    else if policy.limits.None? then None
    else
      var key := PolicyKey(core, PolicyEntry(policy.capabilities, policy.limits.value));
      if request.policyId.Some? && request.policyId.value != key then None else Some(key)
  }

  function RespondResume(core: Core, tables: Tables, request: Request, draw: Draw): Outcome
    requires request.ResumeRequest?
  {
    match SnapshotMeant(core, tables, request.snapshotId, request.snapshotBytes)
    case None => Outcome(tables, Refused(request.id))
    case Some(bytes) =>
      var snapshotId := if request.snapshotBytes.Some? then core.digest(bytes) else request.snapshotId.value;
      var remembered := RememberPolicy(core, tables, request);
      match PolicyMeant(tables, request, snapshotId)
      case None => Outcome(remembered, Refused(request.id))
      case Some(policy) =>
        match PolicyIdMeant(core, request, policy)
        case None => Outcome(remembered, Refused(request.id))
        case Some(policyId) =>
          if !Authenticated(core, snapshotId, policy)
             || (request.snapshotBytes.Some? && policy.snapshotId != Some(snapshotId)) then
            Outcome(remembered, Refused(request.id))
          else if core.load(bytes).None? then Outcome(remembered, Refused(request.id))
          else
            Deliver(core, AddSnapshot(core, remembered, bytes), request.id,
                    ResumeFromBytes(core, bytes, request.payload, policy, draw), policyId)
  }

  function Respond(core: Core, tables: Tables, request: Request, draw: Draw): Outcome {
    if request.protocolVersion != PROTOCOL_VERSION then Outcome(tables, Refused(request.id))
    else
      match request
      case Compile(_, id, source) =>
        (match core.compile(source)
         case None => Outcome(tables, Refused(id))
         case Some(bytes) => Outcome(AddProgram(core, tables, bytes), ProgramResponse(id, bytes, core.digest(bytes))))
      case Start(_, _, _, _, _) => RespondStart(core, tables, request, draw)
      case ResumeRequest(_, _, _, _, _, _, _, _) => RespondResume(core, tables, request, draw)
  }

  function RunAll(core: Core, tables: Tables, history: seq<Handled>): Tables
    decreases |history|
  {
    if history == [] then tables
    else
      var before, last := RunAll(core, tables, history[..|history| - 1]), history[|history| - 1];
      Respond(core, before, last.request, last.draw).tables
  }

  // ------------------------------------------------------------------ what every request keeps

  /** Every key is the digest of what it stands for. */
  ghost predicate WellKeyed(core: Core, tables: Tables) {
    && KeyedByDigest(core, tables.programs)
    && KeyedByDigest(core, tables.snapshots)
    && (forall key :: key in tables.policies ==> key == PolicyKey(core, tables.policies[key]))
  }

  ghost predicate Within<K, V>(a: map<K, V>, b: map<K, V>) {
    forall key :: key in a ==> key in b && b[key] == a[key]
  }

  /** Nothing disappears or changes. */
  ghost predicate Grown(before: Tables, after: Tables) {
    && Within(before.programs, after.programs)
    && Within(before.snapshots, after.snapshots)
    && Within(before.policies, after.policies)
  }

  /** Everything a response names can be looked up, and is what the response says. */
  ghost predicate Resolvable(tables: Tables, response: Response) {
    match response
    case ProgramResponse(_, bytes, id) => id in tables.programs && tables.programs[id] == bytes
    case StepResponse(_, SuspendedStep(_, _, bytes), Some(id), Some(policyId)) =>
      id in tables.snapshots && tables.snapshots[id] == bytes && policyId in tables.policies
    case StepResponse(_, CompletedStep(_), None, None) => true
    case StepResponse(_, _, _, _) => false
    case Refused(_) => true
  }

  ghost predicate KeyedByDigest(core: Core, table: map<string, Content>) {
    forall key :: key in table ==> key == core.digest(table[key])
  }

  lemma AddContent(core: Core, table: map<string, Content>, bytes: Content)
    requires Faithful(core) && KeyedByDigest(core, table)
    ensures var added := table[core.digest(bytes) := bytes]; KeyedByDigest(core, added) && Within(table, added)
  {
    var key := core.digest(bytes);
    if key in table {
      assert core.digest(table[key]) == core.digest(bytes);
    }
  }

  lemma AddEntry(core: Core, tables: Tables, entry: PolicyEntry)
    requires Faithful(core) && WellKeyed(core, tables)
    ensures WellKeyed(core, AddPolicy(core, tables, entry)) && Grown(tables, AddPolicy(core, tables, entry))
  {
    var key := PolicyKey(core, entry);
    if key in tables.policies {
      assert PolicyKey(core, tables.policies[key]) == key;
    }
  }

  lemma DigestKeys(core: Core, tables: Tables, bytes: Content, entry: PolicyEntry)
    requires Faithful(core) && WellKeyed(core, tables)
    ensures WellKeyed(core, AddProgram(core, tables, bytes)) && Grown(tables, AddProgram(core, tables, bytes))
    ensures WellKeyed(core, AddSnapshot(core, tables, bytes)) && Grown(tables, AddSnapshot(core, tables, bytes))
    ensures WellKeyed(core, AddPolicy(core, tables, entry)) && Grown(tables, AddPolicy(core, tables, entry))
  {
    hide Faithful;
    AddContent(core, tables.programs, bytes);
    AddContent(core, tables.snapshots, bytes);
    AddEntry(core, tables, entry);
  }

  lemma GrownTwice(a: Tables, b: Tables, c: Tables)
    requires Grown(a, b) && Grown(b, c)
    ensures Grown(a, c)
  {
  }
}

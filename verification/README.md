# Verification of Mustard's host layers

This project models the layers around Mustard's virtual machine and proves what they promise: the
durable job executor, the binary host boundary and its tree-shaped sibling, the sidecar session and
its framing, single-use progress objects with their native handles, the browser codec, and the image
flood fill. Dafny 4.11 checks it with `dafny verify dfyconfig.toml`.

## How it is laid out

| files | what they model |
|---|---|
| `ExecutorStore`, `Executor`, `ExecutorInvariant` | the in-memory store as a class, the workers and tasks as a state machine over store calls, one inductive invariant |
| `ExecutorTheorems`, `ExecutorRecords`, `ExecutorEndings`, `ExecutorCancellation`, `ExecutorDraining`, `ExecutorFailing` | the theorems over every run: who changes what, what records show, where results and errors come from, how cancellation is honoured, what a drain leaves, how workers end |
| `StructuredValues`, `Bytes`, `BinaryWriter` | values, little-endian integers, UTF-8, the growable buffer |
| `HostGraph`, `HostEncoders`, `TaggedTree`, `HostBoundary`, `HostContent` | host object graphs with sharing and cycles, the two encoders, the tagged tree and the suspended manifest, what crosses, and what a value shows of a graph place by place |
| `BoundaryFormat`, `BoundaryReader`, `LimitValues`, `BoundaryMessages`, `MessageMeaning`, `BoundaryDecoder`, `HostArrival`, `MessageWriters`, `KnownForms` | the binary format as printer and grammar, what the reader makes of it, whole messages, the cursor parser and the message writers as they run, what arrives of the host's objects, and single messages byte by byte |
| `SidecarTables`, `SidecarTheorems`, `SidecarAnswers`, `SidecarSession`, `SidecarWitness` | a session described by ids and full contents, its theorems, which requests are answered and with what, the class with caches that refines it, and a core that meets the assumptions |
| `Framing`, `Transport` | the client's incremental frame reader, the server loop under partial reads, pipelining |
| `ProgressGate` | what a load asks of a dumped state, and what the tokens bind together |
| `ProgressModel`, `ProgressInvariant`, `ProgressTheorems`, `ProgressIdentity`, `ProgressOwners`, `ProgressPrograms`, `ProgressObjects` | objects, claims, handle tables and finalisers as a state machine, its invariant, its theorems on single use, on identities, on who owns what and on what new objects are made of, and the classes that perform its steps |
| `FloodFill`, `WasmCodec` | the two self-contained pieces |
| `Wrappers`, `Sets` | option and result datatypes, set sizes |

Where the original updates fields in place there is a class, proved method by method against a
function on values; the theorems are about those functions. Interleavings are state machines: every
store call of the executor is one atomic step, because no store method awaits anything inside.

## What is assumed

- The virtual machine (compile, start, resume, dump, load) is a set of unknown functions, or a choice
  of the environment. What it draws is explicit: in the sidecar each handled request comes with a `Draw`,
  the number its suspension is marked with (crates/mustard/src/runtime/shared.rs:33-36) and the rest, that
  is the clock, entropy and the order hash maps are written in. `SidecarTables.Faithful` says what is used:
  SHA-256 digests and policy seeds do not collide, and a dumped snapshot can be loaded again and then shows
  a client, under every draw, the steps the live one does. `SidecarTables.NoncesMark` says that the number
  is in the bytes of a suspension and shows nowhere else. `SidecarWitness` has a core for which all of it
  holds. `ProgressGate.Sound` says the same of digests for dumped states, and that HMAC tokens are equal
  exactly for equal messages under keys that are equal once padded (section 2 of RFC 2104).
- For progress objects a run is `ProgressIdentity.Genuine` when no suspension makes a snapshot that was made
  before: each draws a number from a counter of the process (crates/mustard/src/runtime/vm.rs:884 and 1085,
  crates/mustard/src/runtime/async_runtime/scheduler.rs:79) that both forms of snapshot carry
  (crates/mustard/src/runtime/serialization.rs:244 and 272). Only the theorems of `ProgressIdentity` use it.
- In the executor cloning and dumping do not throw, and a store call throws only where the in-memory
  store does. The initial store may hold anything that a restart leaves: finished jobs, stale cancel
  requests, jobs left `running`, and waiting jobs with their progress; only claims start empty.
- Random 128-bit native handles never repeat, and a snapshot identity stands for the snapshot's bytes.
- `JSON.stringify` followed by `JSON.parse` is the identity on the trees of `TaggedTree`; headers of
  frames are printed and parsed by unknown functions, of `Transport.Wire` at the server's end; that it reads
  the headers clients print is `Transport.Understands`. That a client's `JSON.parse`
  accepts the headers a server prints is a premise of `Transport.ClientsReadTheirResponses` only; the
  frame reader itself is modelled with headers that do not parse.
- The memory a reader reserves for an announced count before it reads an item
  (crates/mustard-node/src/boundary_binary.rs:135, 146, 249 and 257) can be had.
- A well-formed JavaScript or Rust string is its sequence of Unicode scalar values; a binary64 number
  is its 64-bit pattern (section 3.4 of IEEE 754-2019). Lengths that must fit 32 bits do.

## Where the code does less, or something else, than it seems to promise

- A hole is written without a depth check (lib/structured.ts:433-438) but read with one
  (crates/mustard-node/src/boundary_binary.rs:218-221). The binary round trip therefore holds exactly
  for graphs without a hole at the deepest level: `HostBoundary.BinaryRoundTrip`, with the graph of
  `HostBoundary.DeepHoleIsWrittenButNotRead` as the witness.
- `step.args.map(decodeStructured)` (lib/progress.ts:688 and 704) passes each argument's position as
  its depth. A step's arguments survive exactly when position plus height is at most 129
  (`TaggedTree.StepArgsRoundTrip`); 130 plain arguments do not (`TaggedTree.ManyArgumentsAreLost`).
  The manifest reader wraps the call and is not affected (`TaggedTree.ManifestRoundTrip`).
- A progress object learns its identity when it is dumped, read or loaded, and without one it resumes
  without a claim (lib/progress.ts:334-341). Within one process this does no harm, since no snapshot is made
  twice: each identity is resumed natively at most once (`ProgressIdentity.IdentityEntersOnce`). But another
  process counts its suspensions from the start again, so a state that was dumped there can have the
  snapshot of an object here that was never dumped; loaded beside it, both resume
  (`ProgressIdentity.ForeignTwinsBothEnter`). This happens for exactly the identities that are loaded
  without having been dumped or read here before (`ProgressIdentity.ExactlyForeignEntersTwice`). Per handle
  single use always holds.
- `materializeStep` retains the program before `new Progress` refuses a capability without a name
  (lib/progress.ts:708-731, 184-185; lib/policy.ts:344-347), a name that the host may offer
  (lib/policy.ts:70-105). Each suspension on it leaves a reference and a snapshot that no object owns: a
  program's count is the number of its owners plus these (`ProgressOwners.CountsAreOwners`), and the entry
  outlives its last owner (`ProgressOwners.UnnamedSuspensionKeepsProgram`,
  `ProgressOwners.ProgramGoesWithItsLastOwner`). A step that `parseStep` throws on leaves a snapshot too
  (`ProgressOwners.EventLeaves`).
- An answered sidecar request that suspends is not answered the same when it is sent again: the new
  suspension has another number, so another snapshot and id, and `Date.now` and `Math.random` are drawn anew
  (docs/LANGUAGE.md:700-703). `SidecarTheorems.ReplayDiffersByNonce` says what stays.
- A cancel request that wins against the promotion of a claimed job rejects the job's task, and a worker
  that waits for the task is rejected with it while its other tasks go on (lib/executor.ts:381-384):
  `ExecutorFailing.WorkersEndInThreeWays`.
- A resume with a full policy and a bare snapshot id is not held to the policy's own `snapshot_id`
  (crates/mustard-sidecar/src/lib.rs:878-882), which docs/SIDECAR_PROTOCOL.md:148-149 requires. This is
  the one way caching can be noticed (`SidecarTheorems.CachesAreInvisible`,
  `SidecarTheorems.BareIdIsAnswered`), and it happens (`SidecarWitness.MisnamedPolicyIsAnswered`).
- With a known `program_id` the digest of inline bytes is not compared, against
  docs/SIDECAR_PROTOCOL.md:102-103 (`SidecarTheorems.MismatchedProgramBytes`,
  `SidecarWitness.MismatchedBytesAreAnswered`).
- `validateTransition` lets a state change to itself, terminal states included
  (`ExecutorTheorems.TerminalUpdates`), where docs/MUSTARD_EXECUTOR.md:99 has `update()` fail closed; no
  task uses this on a terminal record (`ExecutorTheorems.TerminalIsForever`). A `queued` job may already
  be claimed and have a task in flight (`ExecutorTheorems.QueuedJobWithATask`), which
  docs/MUSTARD_EXECUTOR.md:63 does not suggest.
- The limit reader accepts -0 as 0, and 2^64, which the cast brings down to 2^64 - 1
  (crates/mustard-node/src/boundary_binary.rs:175-184).
- The reader accepts an object that repeats a key, any nonzero flag byte and stray mask bits; the
  re-encoding lemmas of `BoundaryReader` and `MessageMeaning` say exactly when bytes are canonical.
- A value under the key `$mustard` is dropped by the browser codec even when it is no tag
  (crates/mustard-wasm/src/lib.rs:243-258); `WasmCodec.JsonRoundTrip` is exact about it.

## Model

| member | source | states |
|---|---|---|
| ExecutorStore.InMemoryStore.Enqueue | lib/executor.ts:151-163 | a new id goes to the end of the iteration order with its record and answers `true`; a known one answers `false` and changes nothing |
| ExecutorTheorems.FirstComeFirstServed | lib/executor.ts:151-186 | over every run: a claim that takes a job takes every claimable job that was enqueued before it |
| ExecutorTheorems.ClaimFillsTheRoom | lib/executor.ts:360-371 | a worker that claims fills its room or leaves nothing claimable; without room it claims nothing and waits |
| ExecutorStore.TransitionTable | lib/executor.ts:105-123 | the moves that are let through: nine between different states, and every state to itself |
| ExecutorStore.InMemoryStore.ClaimRunnable | lib/executor.ts:170-186 | the loop claims exactly the jobs `Picked` names, for this worker, and changes nothing but claims |
| ExecutorStore.PickedIsOldestFirst | lib/executor.ts:170-186 | what a claim promises without its loop: at most `limit` distinct claimable jobs, fewer only when none is left, never a younger job before an older one |
| ExecutorStore.InMemoryStore.ReleaseClaim | lib/executor.ts:188-193 | only the owner's release removes a claim |
| ExecutorStore.InMemoryStore.Update | lib/executor.ts:195-209 | an unknown job or a transition `validateTransition` forbids throws and changes nothing; otherwise each field that the patch names is replaced and every other kept |
| ExecutorRecords.WhatATaskWrites | lib/executor.ts:399-558 | each of a task's updates replaces the state and exactly the fields the code names for it |
| ExecutorStore.InMemoryStore.SaveProgress | lib/executor.ts:211-220 | progress is refused for an unknown or terminal job and stored otherwise |
| ExecutorStore.InMemoryStore.RequestCancel | lib/executor.ts:231-257 | `ignored` for unknown and terminal jobs, `cancelled` for queued ones, `requested` for running and waiting ones, with the whole new state of each case |
| ExecutorStore.InMemoryStore.ConsumeCancel | lib/executor.ts:259-265 | answers whether a request was there and removes it |
| ExecutorTheorems.OwnershipIsExclusive | lib/executor.ts:347-429 | in every interleaving no two tasks in flight work on one job, and a working task's worker holds the claim |
| ExecutorTheorems.OnlyTheOwnerChangesARecord | lib/executor.ts:105-123 | every change of a record in every run is the cancel request on a queued job or is made by the job's one task, along an allowed transition, and never to a terminal record |
| ExecutorTheorems.TerminalIsForever | lib/executor.ts:195-209 | a terminal record is the same in every later state |
| ExecutorTheorems.EnqueueIsIdempotent | lib/executor.ts:320-337 | re-enqueueing an id changes nothing; an id is inserted at most once |
| ExecutorTheorems.WaitingJobsHaveProgress | lib/executor.ts:515-526 | in every reachable state a waiting job has stored progress with the capability and arguments its record shows |
| ExecutorTheorems.ProgressIsNeverMissing | lib/executor.ts:431-449 | the missing-progress branch is unreachable from a well-formed start, although progress is deleted in a separate later step |
| ExecutorTheorems.OnlyALostPromotionThrows | lib/executor.ts:390-429 | the only store call that can throw is the promotion of a job cancelled meanwhile; its task then releases the claim and ends rejected |
| ExecutorFailing.WorkersEndInThreeWays | lib/executor.ts:360-388 | a worker ends exactly by deciding to return with nothing in flight and no job claimed, by being stopped at the top of its loop, or when a task it waits for has lost its promotion; its other tasks stay in flight |
| ExecutorFailing.RejectedTasksLostTheirPromotion | lib/executor.ts:390-429 | a task's promise is rejected only if its job was cancelled between `get` and the promotion, and then the guest was never started |
| ExecutorFailing.FailedWorkersLostAPromotion | lib/executor.ts:381-384 | in every reachable state the job a worker failed by was cancelled by `requestCancel` and never promoted or started |
| ExecutorFailing.LostPromotionFailsTheWorker | lib/executor.ts:381-384 | a run in which it happens |
| ExecutorTheorems.EndedTasksLeaveFinishedJobs | lib/executor.ts:390-429 | a task that has ended leaves its job terminal, unclaimed and without stored progress |
| ExecutorTheorems.TerminalUpdates | lib/executor.ts:105-123 | on a terminal record `update` lets through exactly the patches that name the state it has |
| ExecutorTheorems.QueuedJobWithATask | lib/executor.ts:347-405 | a run in which a queued job is claimed and has a task about to promote it |
| ExecutorRecords.RecordsStayShaped | lib/executor.ts:390-558 | over every run from any store: a record shows exactly what its state calls for, the call it waits for, its result or its error, up to what the job carried when the run began |
| ExecutorEndings.ResultsComeFromTheGuest | lib/executor.ts:515-536 | over every run: the result of a job completed in it is a value its guest finished with, and its record stays for ever |
| ExecutorEndings.FailuresAreExplained | lib/executor.ts:399-512 | over every run: a job failed in it has exactly the error its start threw, or its guest threw that is no cancellation, or of loading its progress, or of a missing capability; and keeps it |
| ExecutorEndings.CancellationsAreExplained | lib/executor.ts:451-512 | over every run: a job cancelled in it was queued when a cancel request came, or its guest threw, on resume or cancel, a cancellation with exactly the recorded error; and stays so |
| ExecutorEndings.EndingsAreRecorded | lib/executor.ts:399-558 | over every run: a result, an error of a start, a load or the guest, a missing capability and a won cancel are recorded in the state each calls for, or about to be, and a job has one of them only |
| ExecutorEndings.GuestsResumeFromTheirSuspension | lib/executor.ts:431-523 | over every run: stored progress is what the guest suspended with, or the store began with, and a guest is resumed or cancelled from exactly that |
| ExecutorRecords.EnqueueRecordsTheInput | lib/executor.ts:320-337 | a new job enters the store queued, with its input, no attempts and nothing else |
| ExecutorRecords.GuestsStartWithTheirInput | lib/executor.ts:404-412 | over every run a guest is started with the input its job was enqueued with, which never changes |
| ExecutorTheorems.StartedAtMostOnce | lib/executor.ts:390-421 | a program is started at most once per job; `attempts` counts the promotions, which are one or none |
| ExecutorTheorems.CancelledJobsAreNeverStarted | lib/executor.ts:231-256 | a job whose cancel answered `cancelled` stays cancelled and is never started, whatever was in flight |
| ExecutorTheorems.ConcurrencyIsBounded | lib/executor.ts:360-371 | tasks in flight and claimed jobs not yet started together never exceed `maxConcurrentJobs` |
| ExecutorDraining.DrainLeavesOnlyJobsOfOthers | lib/executor.ts:360-388 | whatever other workers do: when a draining worker returns with nothing enqueued since its last claim, every job still queued or waiting is claimed by another worker that is at work on it |
| ExecutorDraining.DrainLeavesNothing | lib/executor.ts:360-388 | so nothing is left when no other worker is at work |
| ExecutorDraining.LoneDrainLeavesNothing | lib/executor.ts:360-388 | in particular for a drain that follows workers which returned, or were stopped or failed with nothing in flight |
| ExecutorCancellation.RequestedCancelHolds | lib/executor.ts:431-512 | while a requested cancel is pending no host handler of the job is called, and its guest takes no ordinary step if it was waiting and at most one if it was running |
| ExecutorCancellation.PendingCancelHolds | lib/executor.ts:451-512 | the same from any state, counted by whether the job was still to be started or its task had already looked for requests |
| ExecutorCancellation.ConsumedByItsTask | lib/executor.ts:259-265 | a request stops pending only when the job's own task consumes it, and that task is then cancelling |
| ExecutorCancellation.NextStepIsTheCancel | lib/executor.ts:451-512 | once a request is consumed the guest is cancelled before any handler call and any ordinary step of the job, whatever else happens |
| ExecutorInvariant.ApplyKeepsInv | lib/executor.ts:347-558 | the inductive invariant behind the theorems survives every event |
| StructuredValues.NumberConversionsInvert | crates/mustard/src/structured.rs:18-42 | `from_f64` and `to_f64` invert each other on every float up to the NaN pattern, and on a number exactly when it is canonical |
| Bytes.FixedWidthLE | crates/mustard-node/src/boundary_binary.rs:111-123 | four and eight little-endian bytes are read back as written; a length survives `>>> 0` exactly below 2^32 |
| Bytes.Utf8RoundTrip | lib/structured.ts:93-99 | the UTF-8 form of a well-formed string decodes to it |
| Bytes.Utf8IsUnique | crates/mustard-node/src/boundary_binary.rs:125-131 | only the UTF-8 form of a string is accepted for it |
| BinaryWriter.Writer.EnsureCapacity | lib/structured.ts:49-61 | the doubling loop makes room and keeps the contents |
| BinaryWriter.Writer.WriteBuffer | lib/structured.ts:68-73 | appends exactly the given bytes, whatever reallocation that takes |
| BinaryWriter.Writer.WriteU32 | lib/structured.ts:81-85 | appends the low 32 bits, little-endian |
| BinaryWriter.Writer.WriteString | lib/structured.ts:93-99 | appends the UTF-8 byte length and the UTF-8 bytes |
| HostGraph.UnfoldsExactlyAdmissible | lib/structured.ts:200-283 | the traversal succeeds on exactly the graphs all of whose reachable values may cross: no cycle, no accessor or exotic object, no string with a lone surrogate, no array too long, nothing too deep |
| HostGraph.CyclesAreInadmissible | lib/structured.ts:200-211 | a graph with a reachable cycle is never accepted |
| HostContent.UnfoldsExactlyWhatIsShown | lib/structured.ts:200-283 | what both encoders send of a graph, without their traversal: the value that has the graph's content at every place, and one exactly when every reachable value may cross |
| HostContent.ShowsOneValue | lib/structured.ts:200-283 | flags, texts, floats, holes, items, keys and their order leave one value only that a graph shows |
| HostContent.BytesShow | lib/structured.ts:386-470 | what the reader makes of a graph's bytes has the graph's content at every place, and it makes something exactly without holes at the deepest level |
| HostContent.TreeShows | lib/structured.ts:253-333 | what the tree of a graph is decoded to has the graph's content at every place |
| HostBoundary.SharingIsInvisible | lib/structured.ts:213-283 | a shared object denotes the same value at each place it occurs |
| HostEncoders.EnumerateDataProperties | lib/structured.ts:179-198 | yields the data properties in order, or throws exactly for an accessor or an ill-formed key |
| HostEncoders.WriteStructured | lib/structured.ts:386-470 | prints exactly the encoding of a value that has the graph's content, throws exactly when the graph denotes none, restores the active set either way |
| HostEncoders.EncodeStructured | lib/structured.ts:253-283 | builds exactly the tagged tree of that same value, which is decoded to the graph's content, under the same conditions, so the two encoders agree on every graph |
| BoundaryFormat.ReadBack | crates/mustard-node/src/boundary_binary.rs:218-267 | a value within the limits is read back from its encoding whatever follows, stopping exactly at its end |
| BoundaryFormat.AcceptedIsWritten | crates/mustard-node/src/boundary_binary.rs:218-267 | on every byte string: what is accepted is the encoding of what is returned, with depth, array and length limits respected |
| BoundaryReader.ReadsExactlyEncodings | crates/mustard-node/src/boundary_binary.rs:218-267 | the accepted language is exactly the encodings of values within the limits |
| BoundaryReader.CompleteReadsAreUnique | crates/mustard-node/src/boundary_binary.rs:87-92 | no complete encoding is a strict prefix of another |
| BoundaryReader.AcceptedValuesAreSmall | crates/mustard-node/src/boundary_binary.rs:218-267 | an accepted value has no more nodes than the bytes it took |
| BoundaryReader.CollapseIsDistinct | crates/mustard-node/src/boundary_binary.rs:254-263 | no object the reader builds repeats a key |
| BoundaryReader.RepeatedKeysCollapse | crates/mustard-node/src/boundary_binary.rs:254-263 | of a key that is repeated the last value counts, at the place where the key came first |
| KnownForms.KnownLeaves | crates/mustard-node/src/boundary_binary.rs:12-24 | the tag byte of each kind of value, and what follows it |
| KnownForms.KnownContainers | crates/mustard-node/src/boundary_binary.rs:243-263 | lengths in four bytes, lowest first, and keys before values |
| KnownForms.KnownMasks | lib/structured.ts:35-41 | which limit has which mask bit |
| KnownForms.KnownStartMessage | crates/mustard-node/src/boundary_binary.rs:33-45 | a start message byte by byte |
| KnownForms.KnownInputsMessage | crates/mustard-node/src/boundary_binary.rs:47-55 | a message of structured inputs byte by byte |
| KnownForms.KnownResumeMessages | crates/mustard-node/src/boundary_binary.rs:186-217 | resume payloads byte by byte |
| KnownForms.KnownErrorMessage | crates/mustard-node/src/boundary_binary.rs:186-217 | an error payload byte by byte |
| KnownForms.KnownTreeLeaves | lib/structured.ts:215-283 | the tagged form of each kind of value |
| KnownForms.KnownTrees | lib/structured.ts:253-283 | items, entries and the arguments of a manifest in order under their tags |
| KnownForms.KnownTexts | lib/structured.ts:93-99 | UTF-8 of one to four bytes |
| BoundaryReader.ReencodingIsExact | crates/mustard-node/src/boundary_binary.rs:254-263 | writing back what was read gives the same bytes exactly when no object in them repeated a key |
| BoundaryDecoder.Decoder.ReadExact | crates/mustard-node/src/boundary_binary.rs:94-105 | takes exactly the next bytes or fails without reading past the end |
| BoundaryDecoder.Decoder.ReadString | crates/mustard-node/src/boundary_binary.rs:125-131 | follows the grammar of a length-prefixed UTF-8 string |
| BoundaryDecoder.Decoder.ReadStructuredValue | crates/mustard-node/src/boundary_binary.rs:218-267 | terminates on every input, memory for its reservations given, and follows the grammar: same failures, same value with objects as insertion-ordered maps, same stopping point |
| BoundaryDecoder.Decoder.ReadArray | crates/mustard-node/src/boundary_binary.rs:243-253 | the loop of pushes reads exactly the announced items |
| BoundaryDecoder.Decoder.ReadEntries | crates/mustard-node/src/boundary_binary.rs:133-142 | the loop of inserts reads exactly the announced entries, later ones replacing earlier ones in place |
| BoundaryDecoder.Decoder.ReadStringVec | crates/mustard-node/src/boundary_binary.rs:144-151 | reads the announced strings in order |
| BoundaryDecoder.Decoder.ReadRuntimeLimits | crates/mustard-node/src/boundary_binary.rs:153-173 | each of the five bits decides its own limit, in order, each checked as it is read |
| BoundaryDecoder.Decoder.ReadResumePayload | crates/mustard-node/src/boundary_binary.rs:186-217 | follows the grammar of the three payload variants and their flag bytes |
| BoundaryDecoder.DecodeStartOptionsBytes | crates/mustard-node/src/boundary_binary.rs:33-45 | the cursor parser computes `DecodeStartOptions`, trailing bytes refused |
| BoundaryDecoder.DecodeStructuredInputsBytes | crates/mustard-node/src/boundary_binary.rs:47-55 | the cursor parser computes `DecodeInputs` |
| BoundaryDecoder.DecodeResumePayloadBytes | crates/mustard-node/src/boundary_binary.rs:57-63 | the cursor parser computes `DecodeResume` |
| LimitValues.LimitValueOfFloat | crates/mustard-node/src/boundary_binary.rs:175-184 | a limit pattern is accepted as a given safe integer exactly when it is the float of it, or is -0 for zero |
| LimitValues.LimitsFit | crates/mustard-node/src/boundary_binary.rs:179-183 | every accepted limit fits 64 bits; 2^64 itself is accepted and saturates |
| BoundaryMessages.StartIsWritten | crates/mustard-node/src/boundary_binary.rs:133-173 | an accepted start message is the encoding of what was read, flag and mask bytes included |
| BoundaryMessages.StartIsReadBack | lib/structured.ts:501-507 | a start message within the limits is read back whatever follows |
| BoundaryMessages.ResumeIsWritten | crates/mustard-node/src/boundary_binary.rs:186-217 | an accepted resume payload is the encoding of what was read |
| BoundaryMessages.ResumeIsReadBack | lib/structured.ts:516-591 | a resume payload within the limits is read back whatever follows |
| BoundaryMessages.MaskSelects | lib/structured.ts:351-364 | a mask without stray bits is the mask of the fields it selects |
| MessageMeaning.StartOptionsRoundTrip | crates/mustard-node/src/boundary_binary.rs:33-45 | a whole start message reaches the reader as meant: inputs as a map, capabilities in order, each limit in its place; refused exactly when an input is too deep or a limit is not a whole number in range |
| MessageMeaning.StructuredInputsRoundTrip | crates/mustard-node/src/boundary_binary.rs:47-55 | structured inputs arrive in order, refused exactly when one is too deep |
| MessageMeaning.ResumeRoundTrip | crates/mustard-node/src/boundary_binary.rs:57-63 | a resume payload arrives as meant, refused exactly when its value is too deep |
| MessageMeaning.MapHoldsEntries | crates/mustard-node/src/boundary_binary.rs:40-44 | the map of a start message holds exactly its entries |
| MessageMeaning.MessagesAreSelfDelimiting | crates/mustard-node/src/boundary_binary.rs:87-92 | every strict prefix and every proper extension of an accepted message is refused |
| MessageMeaning.ReencodingStartIsExact | crates/mustard-node/src/boundary_binary.rs:133-173 | writing back a start message gives the same bytes exactly when its mask had no stray bit and no object repeated a key |
| MessageMeaning.ReencodingInputsIsExact | crates/mustard-node/src/boundary_binary.rs:133-142 | writing back structured inputs gives the same bytes exactly when no key was repeated |
| MessageMeaning.ReencodingResumeIsExact | crates/mustard-node/src/boundary_binary.rs:186-217 | writing back a resume payload gives the same bytes exactly when its flags were 0 or 1 and no object repeated a key |
| MessageWriters.WriteEncodedLimits | lib/structured.ts:351-364 | writes the mask of the limits that are present and then those limits in bit order |
| MessageWriters.WriteEncodedCapabilities | lib/structured.ts:366-371 | writes the count and the strings in order, throws exactly for a lone surrogate |
| MessageWriters.EncodeStartOptionsBuffer | lib/structured.ts:501-507 | throws exactly when an input or a capability may not cross; otherwise the reader is given, under each key, what that property shows, the capabilities in order and each limit in its place |
| MessageWriters.EncodeStructuredInputsBuffer | lib/structured.ts:494-499 | throws exactly when an input may not cross; otherwise the reader is given what the properties show, in order |
| MessageWriters.EncodeResumePayloadValueBuffer | lib/structured.ts:516-522 | throws exactly when the graph may not cross; otherwise the reader is given what the graph shows, or refuses it exactly for a hole at the deepest level |
| MessageWriters.EncodeResumePayloadErrorBuffer | lib/structured.ts:553-578 | throws exactly when one of the four properties may not cross; otherwise the reader is given the name, message, code and details of the error object, each from its own property or its default |
| HostArrival.ErrorIsItsParts | lib/structured.ts:553-578 | which part of the payload comes from which property, with which default, and when it is sent |
| MessageWriters.EncodeResumePayloadCancelBuffer | lib/structured.ts:586-591 | writes the cancellation payload |
| HostArrival.StartRequestArrives | lib/structured.ts:472-507 | from host objects to the reader: a start request arrives as the objects denote it |
| HostArrival.ResumeValueArrives | lib/structured.ts:516-522 | from a host graph to the reader, refused exactly for a hole at the deepest level |
| HostArrival.HostErrorArrives | lib/structured.ts:553-578 | from an error object to the reader, refused exactly for details with a hole at the deepest level |
| HostBoundary.BinaryRoundTrip | lib/structured.ts:386-470 | every graph within the size limits is read back as exactly the value it denotes, whatever follows, if and only if no array at the deepest level has a hole |
| HostBoundary.FitsWithoutDeepHoles | lib/structured.ts:433-438 | the writer's and the reader's depth limits differ exactly on holes at the deepest level |
| HostBoundary.TooDeepIsRejected | crates/mustard-node/src/boundary_binary.rs:218-221 | the reader refuses the encoding of any value too deep for it |
| HostBoundary.DeepHoleIsWrittenButNotRead | lib/structured.ts:433-438 | 128 nested arrays with a hole in the innermost: written by both encoders, refused by the binary reader, kept by the tree form |
| HostBoundary.TreeRoundTrip | lib/structured.ts:253-333 | every graph the tree encoder accepts is decoded to the value it denotes, holes, `undefined`, NaN, infinities and -0 included |
| TaggedTree.UntagAfterTag | lib/structured.ts:285-333 | the tree form of a value is decoded to it exactly when the host can hold the value |
| TaggedTree.ManifestRoundTrip | lib/policy.ts:344-379 | a suspended call survives its manifest exactly when the capability has a name and the host can hold each argument |
| TaggedTree.StepArgsRoundTrip | lib/progress.ts:677-706 | `map(decodeStructured)` passes positions as depths: a step's arguments survive exactly when each position plus height is at most 129 |
| TaggedTree.DecodedByPosition | lib/progress.ts:688 | no step with more than 129 arguments is decoded, whatever they are |
| TaggedTree.ManyArgumentsAreLost | lib/progress.ts:688 | a call with 130 plain arguments that the manifest keeps and `parseStep` throws on |
| SidecarSession.Session.Handle | crates/mustard-sidecar/src/lib.rs:783-908 | whatever is drawn, the session with its caches answers every request, and changes its tables, exactly as one that has only ids and full contents does with the same draw |
| SidecarAnswers.ResumeIsAnsweredExactly | crates/mustard-sidecar/src/lib.rs:276-316 | a resume is answered exactly when it is authorised, by the snapshot it means, the policy it brings or names, and a key and token that fit the snapshot; and then with the step the machine takes from that snapshot under that policy |
| SidecarAnswers.AnsweredResumesCarryTheirToken | crates/mustard-sidecar/src/lib.rs:295-300 | over every history: an answered resume carries the token of the snapshot it means under the key it carries, and that key's digest |
| SidecarAnswers.StartIsAnsweredExactly | crates/mustard-sidecar/src/lib.rs:752-860 | a start is answered with the first step of the program it means and registers its capabilities and limits as the policy a suspension names; it is refused when it means none |
| SidecarAnswers.CompileIsAnsweredExactly | crates/mustard-sidecar/src/lib.rs:783-820 | a compile request is answered with what the compiler gives, filed under its digest |
| SidecarWitness.ForgedTokenIsRefused | crates/mustard-sidecar/src/lib.rs:295-300 | in a core whose tokens do not collide: a resume with its snapshot, key and digest right is answered exactly with the right token |
| SidecarSession.Session.ResolveEntry | crates/mustard-sidecar/src/lib.rs:547-556 | decoding at most once gives what decoding gives |
| SidecarSession.Session.ResolveProgram | crates/mustard-sidecar/src/lib.rs:752-781 | a known id wins over bytes; unknown bytes are kept even when they do not decode; a wrong id is refused |
| SidecarSession.Session.RegisterPolicy | crates/mustard-sidecar/src/lib.rs:589-613 | files the policy under the digest of its seed, once |
| SidecarSession.Session.ResolveSnapshot | crates/mustard-sidecar/src/lib.rs:615-641 | the id a resume means and the bytes it brought, or a refusal |
| SidecarSession.Session.ResolveResumePolicy | crates/mustard-sidecar/src/lib.rs:643-695 | all four combinations of policy and policy id |
| SidecarSession.Session.ResolveLiveSnapshot | crates/mustard-sidecar/src/lib.rs:697-718 | taking the live snapshot or loading the bytes gives a snapshot that acts the same under every draw; the bytes stay known |
| SidecarSession.Session.ResponseStep | crates/mustard-sidecar/src/lib.rs:720-750 | a suspension is filed under the digest of its bytes and named in the response |
| SidecarTheorems.RespondKeeps | crates/mustard-sidecar/src/lib.rs:783-908 | every request keeps keys equal to digests, keeps every entry, and names only what can be looked up |
| SidecarTheorems.NamedIdsStayResolvable | crates/mustard-sidecar/src/lib.rs:720-750 | every program, snapshot and policy id ever returned stays resolvable to the same content |
| SidecarTheorems.ReplayGivesTheSameStep | crates/mustard-sidecar/src/lib.rs:697-718 | a request that was answered is answered at any later time, live snapshot or not, as it would have been then with what is drawn now: only a draw can change an answer |
| SidecarTheorems.NoncesNameSnapshots | crates/mustard/src/runtime/shared.rs:33-36 | draws that differ in the suspension number alone change an answer exactly if it is a suspension, and then nothing but its snapshot bytes and id |
| SidecarTheorems.ReplayDiffersByNonce | crates/mustard-sidecar/src/lib.rs:697-750 | so an answered request sent again with another number is answered the same unless it suspends, and a suspension gets another snapshot and id and nothing else new |
| SidecarTheorems.SnapshotIdsAreFresh | crates/mustard-sidecar/src/lib.rs:720-750 | over every history two suspensions that drew different numbers have different snapshots and ids |
| SidecarTheorems.CachesAreInvisible | crates/mustard-sidecar/src/lib.rs:589-781 | after any history the response is the one a fresh session gives, with the same draw, to the same request in full, except exactly for an otherwise acceptable resume that sends a bare snapshot id with a policy naming another snapshot |
| SidecarTheorems.BareIdIsAnswered | crates/mustard-sidecar/src/lib.rs:865-908 | a bare snapshot id with a full policy is answered exactly when it passes the guards listed in `Acceptable`; in full it is then refused exactly when the policy names another snapshot |
| SidecarWitness.MisnamedPolicyIsAnswered | crates/mustard-sidecar/src/lib.rs:878-882 | in a core that meets the assumptions: such a request is answered, and refused in full |
| SidecarTheorems.ResumeTransparent | crates/mustard-sidecar/src/lib.rs:276-316 | when that policy names another snapshot, the request in full is refused |
| SidecarTheorems.MismatchedProgramBytes | crates/mustard-sidecar/src/lib.rs:752-772 | program bytes that do not match their id refuse a start exactly when the id is unknown; otherwise they make no difference and the start is answered exactly when the known program starts |
| SidecarWitness.MismatchedBytesAreAnswered | crates/mustard-sidecar/src/lib.rs:757-761 | in a core that meets the assumptions: a start with a known id and other bytes is answered |
| SidecarWitness.SmallCoreIsFaithful | crates/mustard-sidecar/src/lib.rs:239-270 | the assumptions about the machine, the numbers it marks snapshots with, digests and seeds can be met together |
| Framing.EncodeFrame | lib/sidecar.ts:5-14 | fills the frame in place; refuses exactly lengths that do not fit 32 bits |
| Framing.FramesRoundTrip | lib/sidecar.ts:16-47 | a stream of frames followed by an incomplete one splits into those frames |
| KnownForms.KnownFrame | lib/sidecar.ts:5-14 | a frame byte by byte: header length, blob length, header, blob |
| Framing.StreamIsItsFrames | lib/sidecar.ts:22-47 | the bytes of a stream are its frames' bytes and what is left |
| Framing.FrameReader.TryResolve | lib/sidecar.ts:22-47 | serves calls in order, each once, with the frames of the stream in order, none skipped or given twice; what was done for a call stays; rejects at most one and only after the end; stops only when no call waits, no frame is complete, or `JSON.parse` threw on the header just taken |
| Framing.FrameReader.OnData | lib/sidecar.ts:49-52 | keeps that for any chunk at any time, also after the end or after a throw, adding exactly the chunk to what was received; a settled promise stays as it is |
| Framing.FrameReader.OnEnd | lib/sidecar.ts:53-67 | keeps that at the end of the stream, settled promises included |
| Framing.FrameReader.ReadFrame | lib/sidecar.ts:69-74 | keeps that for a new call; a throw inside it rejects exactly the new call's promise, and then a header that does not parse came up to its number |
| Framing.NothingThrows | lib/sidecar.ts:36-40 | nothing throws while the headers received parse |
| Framing.ChunkingIsInvisible | lib/sidecar.ts:49-75 | before the end, bytes received and number of calls decide which calls are served with what, and every promise while the headers parse |
| Framing.CallsGetTheirFrames | lib/sidecar.ts:16-75 | before the end, the promise of call `i` is fulfilled, with frame `i`, exactly when that frame is complete, its header parses and no parse threw inside the call, which takes a header up to the `i`-th that does not parse; bytes received are frames taken plus the buffer |
| Transport.ReadU32OrEof | crates/mustard-sidecar/src/main.rs:29-45 | under any partial reads: the length, a clean end before the first byte, or an error in the middle |
| Transport.ReadExactVec | crates/mustard-sidecar/src/main.rs:47-51 | under any partial reads: exactly the next bytes or an error |
| Transport.ReadRequestFrame | crates/mustard-sidecar/src/main.rs:58-77 | one frame, a clean end, or an error for truncation or more than 1 MiB |
| Transport.RunBinaryTransport | crates/mustard-sidecar/src/main.rs:53-104 | the loop writes exactly what `Serve` says of the whole input and the draws of the run, and leaves the session in that state |
| Transport.RequestsAreUnderstood | crates/mustard-sidecar/src/lib.rs:390-440 | the server takes the frame a client sends for a request, header and inline bytes, for that very request |
| Transport.CompileTakesNoBlob | crates/mustard-sidecar/src/lib.rs:391-402 | a compile frame with a blob ends the connection |
| Transport.BlankFramesAreSkipped | crates/mustard-sidecar/src/lib.rs:941-955 | exactly a header of white space without a blob is passed over |
| Transport.FramesAreReadExactly | crates/mustard-sidecar/src/main.rs:58-77 | which bytes are read as which frame: header and blob of one mebibyte together at most |
| Transport.PipelineAnswersInOrder | crates/mustard-sidecar/src/main.rs:53-104 | for any run of requests that clients send, the server handles exactly these requests in order and writes exactly their responses in order |
| Transport.ClientsReadTheirResponses | lib/sidecar.ts:77-88 | however much of the output has arrived and however it was cut, the promise of a `readFrame` call is pending or fulfilled with the response to the request with its number, and once all has arrived it is fulfilled |
| Transport.JoinedAfterStripped | crates/mustard-sidecar/src/lib.rs:484-530 | splitting a response into header and blob loses nothing |
| ProgressObjects.Process.InsertProgram | crates/mustard-node/src/lib.rs:181-196 | a new handle with one reference |
| ProgressObjects.Process.RetainProgram | crates/mustard-node/src/lib.rs:599-613 | one more reference, or an error for an unknown handle |
| ProgressObjects.Process.ReleaseProgram | crates/mustard-node/src/lib.rs:616-635 | one reference less, the entry removed with its last one, nothing for an unknown handle |
| ProgressObjects.Process.TakeSnapshot | crates/mustard-node/src/lib.rs:232-239 | the snapshot leaves the table when taken |
| ProgressObjects.Process.ResumeSnapshotHandle | crates/mustard-node/src/lib.rs:1145-1163 | a payload that does not decode leaves the snapshot, an unknown handle is an error; otherwise the snapshot is taken and the next one filed |
| ProgressObjects.Process.ClaimSnapshot | lib/progress.ts:58-70 | exclusive creation: succeeds exactly when the identity is not claimed |
| ProgressObjects.ProgressObject.constructor | lib/progress.ts:210-228 | once nothing can throw any more: registers the handles it is given for finalisation |
| ProgressObjects.MakeProgress | lib/progress.ts:139-228 | without a manifest and a capability name it throws and registers nothing; otherwise the new object's handles are registered |
| ProgressObjects.ProgressObject.EnsureSnapshotBytes | lib/progress.ts:271-300 | bytes and identity are filled in from the native snapshot once, or it throws |
| ProgressObjects.ProgressObject.ConsumeSnapshotHandle | lib/progress.ts:330-348 | refused objects change nothing; otherwise the claim is made, the handle handed out and the object consumed |
| ProgressObjects.ProgressObject.ResumeWithPayload | lib/progress.ts:376-416 | does exactly the model's resume step, a suspension on the capability without a name included, and never needs the path that resumes from bytes |
| ProgressObjects.ProgressObject.Dump | lib/progress.ts:422-447 | does exactly the model's dump step |
| ProgressObjects.LoadProgress | lib/progress.ts:469-674 | throws and changes nothing exactly when the gate refuses the state; otherwise does exactly the model's claim and load steps; returns an object exactly when the policy has the capability of the manifest, or without one the inspected call has a name, and the native side accepts; the object has the state's snapshot and program |
| ProgressGate.DumpIsAllowedExactly | lib/progress.ts:128-136 | a dump with its own key and a free identity is let in, and its call allowed exactly under a policy that has its capability |
| ProgressGate.DumpIsAdmitted | lib/policy.ts:473-560 | what `dump` writes is let in under its own key, showing exactly its call, precisely when its identity is free and its call survives the manifest |
| ProgressGate.TokensBind | lib/policy.ts:381-455 | exactly which states that carry a dump's tokens are let in: same snapshot, ids and manifest, or no manifest at all, a program that matches its own id, and a key that HMAC takes for the dump's with the digest the state names; with the dump's own key digest only the dump's own key |
| ProgressGate.KeysUpToPadding | lib/policy.ts:307-323 | of two keys of at most 64 bytes HMAC takes the longer for the shorter exactly when the rest is zero bytes |
| ProgressGate.TokensAreSeparate | lib/policy.ts:381-388 | a snapshot token is never a manifest token, under any two keys |
| ProgressObjects.MaterializeStep | lib/progress.ts:708-731 | retains the program for the new object and registers both handles; throws exactly when the program is gone, before anything, or when the capability has no name, after the program was retained |
| ProgressObjects.MustardObject.constructor | lib/runtime.ts:59-65 | compiles into the tables and owns one reference |
| ProgressObjects.MustardObject.EnsureProgramHandle | lib/runtime.ts:72-81 | loads the program at most once |
| ProgressObjects.MustardObject.Start | lib/runtime.ts:150-175 | does exactly the model's start step, a suspension on the capability without a name included |
| ProgressObjects.ValidateProgram | lib/runtime.ts:67-70 | inserts and releases |
| ProgressInvariant.ApplyKeepsInv | lib/progress.ts:271-416 | the invariant of the whole process survives every event, finalisers and failed loads in any order included |
| ProgressTheorems.HandleEntersOnce | lib/progress.ts:376-400 | over every run native resume is entered at most once per snapshot handle |
| ProgressIdentity.IdentityEntersOnce | lib/progress.ts:323-348 | over every run that loads only states dumped or read in this process: native resume is entered at most once per snapshot identity, whether the objects knew it or not |
| ProgressIdentity.EntersTwiceOnlyForeign | lib/progress.ts:323-348 | over every run: an identity entered twice was entered once by an object that knew it and once by one that did not, and its snapshot was both made here and loaded from elsewhere |
| ProgressIdentity.ExactlyForeignEntersTwice | lib/progress.ts:323-348 | the identities that can be entered twice are exactly those loaded without having been dumped or read here |
| ProgressIdentity.SecondEntryExactly | lib/progress.ts:330-348 | after an entry, another object with that snapshot is refused exactly when both it and the object that entered knew the identity, in every run |
| ProgressIdentity.ForeignTwinsBothEnter | lib/progress.ts:334-341 | a run in which a loaded dump of another process and an undumped object with the same snapshot both enter |
| ProgressTheorems.KnownIdentityEntersOnce | lib/progress.ts:330-348 | even if snapshots were made twice, of two objects that entered for one identity one did not know it |
| ProgressTheorems.ResumeEntersExactly | lib/progress.ts:330-416 | an object is resumed natively exactly when it is neither consumed nor unclaimed with a claimed identity; its handle is always there, its snapshot is the one its identity names, and a refusal changes nothing |
| ProgressTheorems.SpentForever | lib/progress.ts:323-348 | once an identity was resumed by an object that knew it, every copy is refused for ever |
| ProgressTheorems.SpentIdentityStaysSpent | lib/progress.ts:84-100 | ... and so is every new load |
| ProgressTheorems.FailedLoadLeavesIdentityResumable | lib/progress.ts:556-674 | a load that fails, however far it got, leaves the native tables as they were and every unconsumed object with that identity resumable, and the identity loadable |
| ProgressOwners.CountsAreOwners | crates/mustard-node/src/lib.rs:599-635 | over every run a program's count is its number of owners plus the number of suspensions on the capability without a name, equal to the owners exactly when there was none; it is in the table exactly while there are any of either |
| ProgressOwners.NamedCapabilitiesLeaveNoStrays | lib/policy.ts:344-347 | where no capability without a name is offered there is no such suspension |
| ProgressOwners.UnnamedSuspensionKeepsProgram | lib/progress.ts:708-731 | a run in which a program outlives its last owner because the guest called the capability without a name |
| ProgressOwners.EventLeaves | lib/progress.ts:677-731 | an event adds a reference without an owner exactly when it suspends on the capability without a name, and a snapshot without an owner exactly when it does that or suspends on a step that cannot be read; none removes either |
| ProgressOwners.SnapshotsAreOwned | crates/mustard-node/src/lib.rs:207-239 | over every run an entry of the snapshot table has exactly one owner, or is one of as many entries without an owner as suspensions no object was made of |
| ProgressTheorems.LiveOwnersKnowTheirProgram | lib/progress.ts:214-220 | a live owner never sees an unknown program handle |
| ProgressPrograms.ResumeMakesTheSuspension | lib/progress.ts:376-400 | a resume that suspends makes exactly one object, with the new suspension's snapshot and the program of the object that was resumed |
| ProgressPrograms.StartMakesTheSuspension | lib/runtime.ts:150-175 | a start that suspends makes exactly one object, with that snapshot and the program of its Mustard |
| ProgressPrograms.LoadMakesTheDump | lib/progress.ts:556-674 | a load that succeeds makes one object of exactly the given snapshot and program, which holds the claim and can be resumed |
| ProgressPrograms.DumpShowsItsProgram | lib/progress.ts:422-447 | over every run: a dump shows the code of the very program its snapshot runs with, and the snapshot native resume would enter |
| ProgressOwners.ProgramGoesWithItsLastOwner | crates/mustard-node/src/lib.rs:616-635 | finalising an owner removes the program exactly when it was the last and no suspension on the capability without a name retained it |
| FloodFill.FloodTransparent | scripts/transparent-mascot.py:24-63 | exactly the pixels joined to the edge by 4-connected similar pixels become transparent, colours and other pixels stay, each pixel is queued once |
| FloodFill.ClearedExactly | scripts/transparent-mascot.py:20-63 | a pixel becomes fully transparent, its colour kept, exactly when steps up, down, left and right over pixels at most 28 off the average in each channel lead to it from the outermost rows and columns |
| FloodFill.SeedsAreTheEdge | scripts/transparent-mascot.py:31-37 | the seeds are the edge pixels |
| FloodFill.EdgeAverage | scripts/transparent-mascot.py:40-41 | the average counts each seed, corners repeatedly, and rounds down; without seeds there is none |
| FloodFill.QueuedIsJoined | scripts/transparent-mascot.py:51-61 | a queue closed under similar neighbours that holds the similar edge pixels holds exactly the joined pixels |
| FloodFill.VisitNeighbours | scripts/transparent-mascot.py:55-60 | each similar neighbour is queued unless it was before |
| WasmCodec.JsonRoundTrip | crates/mustard-wasm/src/lib.rs:227-296 | a value written as JSON is read back, objects compared as maps, exactly when its numbers are canonical and `$mustard` is a key nowhere |
| WasmCodec.JsonIsInjective | crates/mustard-wasm/src/lib.rs:264-296 | on those values the JSON form decides the value up to the order of entries |
| WasmCodec.KnownJson | crates/mustard-wasm/src/lib.rs:264-296 | the JSON form of each kind of value, and the name of each that JSON lacks |

## Left out

- Guest semantics, bytecode, garbage collection, promises and what is inside a snapshot: the machine is a set of unknown functions.
- Liveness: worker progress, polling delays, abort signals, the race in `settleCapabilityInvocation`, and whether every waiting `readFrame` call settles after the end of the stream.
- Wall-clock fields, error texts and profiling numbers; JSON text, base64 and the `--jsonl` transport.
- The strength of SHA-256 and HMAC, and timing-safe comparison: only the control flow around them is modelled.
- `Mustard.run` and its loop of native handles without progress objects; execution contexts and their handles.
- Resuming from snapshot bytes without a handle (lib/progress.ts:402-415): unreachable, since an object that is not consumed has its handle; likewise loading a program inside a resume (lib/progress.ts:350-362), since an object with program bytes has a program handle.
- `decodeStructured` on trees the encoder never writes, such as a `Bool` tag over a string: `TaggedTree.Untag` refuses those where the original returns the payload unchanged.
- Which options spell out the authority of a load (an execution context, or capabilities, limits and key): `ProgressGate.Authority` or none.
- Limits and host handlers of the wrong type, which the host coerces: limits are binary64 patterns here.
- File system, process spawning, Node-API, WASM memory, image loading and `crop_to_square`; benchmarks, release scripts, website and catalogs.
- A rejected task that its worker does not wait for is an unhandled rejection, which Node may end the process for; here the worker goes on.
- How the clock, entropy and hash order of a draw come about: a draw is whatever one handled sidecar request gets.

/**
 What `Progress.load` asks of a dumped state before it claims anything (lib/progress.ts:469-555 and
 lib/policy.ts:344-457, 473-560), and what that binds together.

 SHA-256 and HMAC are the unknown functions of `Hashes`, assumed not to collide; JSON text is the
 unknown pair of `Text`.
 */
module ProgressGate {
  import opened Wrappers
  import opened StructuredValues
  import opened Bytes
  import opened BoundaryFormat
  import opened TaggedTree

  /** `sha` is the digest in hexadecimal and `raw` the same in bytes. */
  datatype Hashes = Hashes(sha: seq<byte> -> string, raw: seq<byte> -> seq<byte>, hmac: (seq<byte>, seq<byte>) -> string)

  datatype Text = Text(stringify: Json -> string, parse: string -> Option<Json>)

  predicate IsHex(text: string) {
    text != "" && forall i :: 0 <= i < |text| ==> '0' <= text[i] <= '9' || 'a' <= text[i] <= 'f'
  }

  function Zeros(n: nat): (r: seq<byte>)
    ensures |r| == n && forall i :: 0 <= i < n ==> r[i] == 0
  {
    if n == 0 then [] else [0] + Zeros(n - 1)
  }

  /** The key HMAC works with (section 2 of RFC 2104): hashed when it is longer than a block of 64 bytes,
      and then filled up with zero bytes. */
  function BlockKey(hashes: Hashes, key: seq<byte>): seq<byte> {
    var short := if |key| > 64 then hashes.raw(key) else key;
    short + Zeros(if |short| < 64 then 64 - |short| else 0)
  }

  /** What is assumed of the unknown functions. */
  ghost predicate Sound(hashes: Hashes, text: Text) {
    && (forall bytes :: IsHex(hashes.sha(bytes)))
    && (forall a, b :: hashes.sha(a) == hashes.sha(b) ==> a == b)
    && (forall k, m :: hashes.hmac(k, m) != "")
    && (forall k, m, k', m' :: hashes.hmac(k, m) == hashes.hmac(k', m') <==> BlockKey(hashes, k) == BlockKey(hashes, k') && m == m')
    && (forall json :: text.stringify(json) != "" && text.parse(text.stringify(json)) == Some(json))
  }

  /** A property of a dumped state: `undefined`, of the wrong type, or usable. */
  datatype Prop<T> = Absent | Malformed | Present(value: T)

  /** A dumped state as it comes back from wherever it was kept. */
  datatype Dumped = Dumped(
    snapshot: Prop<seq<byte>>,
    snapshotId: Prop<string>,
    keyDigest: Prop<string>,
    token: Prop<string>,
    program: Prop<seq<byte>>,
    programId: Prop<string>,
    manifest: Prop<string>,
    manifestToken: Prop<string>)

  /** The authority a load brings: a key and the capabilities of its policy. */
  datatype Authority = Authority(key: seq<byte>, capabilities: seq<string>)

  datatype GateError = MissingMetadata | MissingAuthority | Tampered | ProgramMismatch | AlreadyUsed | KeyMismatch | ManifestRejected

  /** A state that was let in: its snapshot, its program, and the call its manifest shows, if it has one;
      otherwise the native side is asked for the call. */
  datatype Admission = Admission(snapshot: seq<byte>, program: Option<seq<byte>>, call: Option<(string, seq<StructuredValue>)>)

  predicate Given(field: Prop<string>) {
    field.Present? && field.value != ""
  }

  function SnapshotToken(hashes: Hashes, key: seq<byte>, id: string): string {
    hashes.hmac(key, Utf8(id))
  }

  function ManifestMessage(id: string, manifest: string): seq<byte> {
    Utf8(id) + ([0] + Utf8(manifest))
  }

  function ManifestToken(hashes: Hashes, key: seq<byte>, id: string, manifest: string): string {
    hashes.hmac(key, ManifestMessage(id, manifest))
  }

  /** `assertSuspendedManifest`: absent together, or authenticated and well formed. */
  function CheckManifest(hashes: Hashes, text: Text, state: Dumped, key: seq<byte>, id: string)
    : Result<Option<(string, seq<StructuredValue>)>, GateError>
  {
    if state.manifest.Absent? && state.manifestToken.Absent? then Success(None)
    else if !Given(state.manifest) || !Given(state.manifestToken) then Failure(ManifestRejected)
    else if state.manifestToken.value != ManifestToken(hashes, key, id, state.manifest.value) then Failure(ManifestRejected)
    else
      match text.parse(state.manifest.value)
      case None => Failure(ManifestRejected)
      case Some(json) =>
        match ParseManifest(json)
        case None => Failure(ManifestRejected)
        case Some(call) => Success(Some(call))
  }

  /** The checks in the order they are made; `claims` are the claimed identities, and `authority` is
      `None` when the options of the load do not spell out capabilities, limits and key. */
  function Admit(hashes: Hashes, text: Text, state: Dumped, authority: Option<Authority>, claims: set<seq<byte>>)
    : Result<Admission, GateError>
  {
    if !state.snapshot.Present? || !Given(state.snapshotId) || !Given(state.keyDigest) || !Given(state.token) then
      Failure(MissingMetadata)
    else
      var snapshot, id := state.snapshot.value, hashes.sha(state.snapshot.value);
      if state.snapshotId.value != id then Failure(Tampered)
      else if state.program.Malformed? || (state.program.Present? && !Given(state.programId)) then Failure(MissingMetadata)
      else if state.program.Present? && hashes.sha(state.program.value) != state.programId.value then Failure(ProgramMismatch)
      else if snapshot in claims then Failure(AlreadyUsed)
      else if authority.None? then Failure(MissingAuthority)
      else if hashes.sha(authority.value.key) != state.keyDigest.value then Failure(KeyMismatch)
      else if state.token.value != SnapshotToken(hashes, authority.value.key, id) then Failure(Tampered)
      else
        match CheckManifest(hashes, text, state, authority.value.key, id)
        case Failure(error) => Failure(error)
        case Success(call) =>
          Success(Admission(snapshot, if state.program.Present? then Some(state.program.value) else None, call))
  }

  /** What `dump` writes for an object suspended on a call. */
  function DumpOf(hashes: Hashes, text: Text, key: seq<byte>, snapshot: seq<byte>, program: Option<seq<byte>>,
                  capability: string, args: seq<StructuredValue>): Dumped
  {
    var id, manifest := hashes.sha(snapshot), text.stringify(Manifest(capability, args));
    Dumped(Present(snapshot), Present(id), Present(hashes.sha(key)), Present(SnapshotToken(hashes, key, id)),
           if program.Some? then Present(program.value) else Absent,
           if program.Some? then Present(hashes.sha(program.value)) else Absent,
           Present(manifest), Present(ManifestToken(hashes, key, id, manifest)))
  }

  // ------------------------------------------------------------------ what a dump is worth

  /** A dump is let in under its own key, and shows exactly the call the object was suspended on, when its
      identity is not claimed and its arguments can be held by the host. */
  lemma DumpIsAdmitted(hashes: Hashes, text: Text, authority: Authority, snapshot: seq<byte>, program: Option<seq<byte>>,
                       capability: string, args: seq<StructuredValue>, claims: set<seq<byte>>)
    requires Sound(hashes, text)
    ensures var dump := DumpOf(hashes, text, authority.key, snapshot, program, capability, args);
      var admitted := Admit(hashes, text, dump, Some(authority), claims);
      admitted == Success(Admission(snapshot, program, Some((capability, args)))) <==>
        snapshot !in claims && capability != "" && forall i :: 0 <= i < |args| ==> HostShaped(args[i], 1)
  {
    hide ParseManifest, HostShaped;
    ManifestRoundTrip(capability, args);
    NotEmpty(hashes, snapshot);
    NotEmpty(hashes, authority.key);
    if program.Some? {
      NotEmpty(hashes, program.value);
    }
  }

  // ------------------------------------------------------------------ which calls may be resumed

  /** The call that a manifest tells of. */
  function ManifestCall(text: Text, state: Dumped): Option<(string, seq<StructuredValue>)> {
    if !state.manifest.Present? then None
    else
      match text.parse(state.manifest.value)
      case None => None
      case Some(json) => ParseManifest(json)
  }

  /** The policy allows the call of a state: by its manifest it is a call of one of the capabilities; without a
      manifest the native side shows a call with a name. */
  predicate CallAllowed(text: Text, state: Dumped, capabilities: seq<string>, inspected: string) {
    if state.manifest.Present? then ManifestCall(text, state).Some? && ManifestCall(text, state).value.0 in capabilities
    else inspected != ""
  }

  /** A state that is let in shows the call of its manifest. */
  lemma AdmittedCall(hashes: Hashes, text: Text, state: Dumped, authority: Option<Authority>, claims: set<seq<byte>>)
    ensures var admitted := Admit(hashes, text, state, authority, claims);
      admitted.Success? ==>
        && authority.Some? && admitted.value.call == ManifestCall(text, state) && (state.manifest.Present? <==> admitted.value.call.Some?)
        && state.snapshot == Present(admitted.value.snapshot)
        && (if admitted.value.program.Some? then state.program == Present(admitted.value.program.value) else state.program.Absent?)
  {
    hide ParseManifest;
  }

  /** The dump of a named call with arguments the host can hold, under its own key and with a free identity, is
      let in, and its call allowed, exactly under a policy that has its capability. */
  lemma DumpIsAllowedExactly(hashes: Hashes, text: Text, authority: Authority, snapshot: seq<byte>, program: Option<seq<byte>>,
                             capability: string, args: seq<StructuredValue>, claims: set<seq<byte>>, inspected: string)
    requires Sound(hashes, text) && snapshot !in claims
    requires capability != "" && forall i :: 0 <= i < |args| ==> HostShaped(args[i], 1)
    ensures var dump := DumpOf(hashes, text, authority.key, snapshot, program, capability, args);
      && Admit(hashes, text, dump, Some(authority), claims).Success?
      && (CallAllowed(text, dump, authority.capabilities, inspected) <==> capability in authority.capabilities)
  {
    hide Admit, ParseManifest, HostShaped, Sound;
    DumpIsAdmitted(hashes, text, authority, snapshot, program, capability, args, claims);
    AdmittedCall(hashes, text, DumpOf(hashes, text, authority.key, snapshot, program, capability, args), Some(authority), claims);
  }

  lemma NotEmpty(hashes: Hashes, bytes: seq<byte>)
    requires IsHex(hashes.sha(bytes))
    ensures hashes.sha(bytes) != ""
  {
  }

  // ------------------------------------------------------------------ what the tokens bind

  lemma {:induction false} HexHasNoZero(text: string)
    requires forall i :: 0 <= i < |text| ==> '0' <= text[i] <= '9' || 'a' <= text[i] <= 'f'
    ensures forall i :: 0 <= i < |Utf8(text)| ==> Utf8(text)[i] != 0
  {
    if text != "" {
      HexHasNoZero(text[1..]);
      assert Utf8Char(text[0]) == [text[0] as int];
    }
  }

  lemma Utf8IsInjective(a: string, b: string)
    requires Utf8(a) == Utf8(b)
    ensures a == b
  {
    Utf8RoundTrip(a);
    Utf8RoundTrip(b);
  }

  /** Where the first zero byte is decides how bytes were put together. */
  lemma FirstZero(a: seq<byte>, b: seq<byte>, x: seq<byte>, y: seq<byte>)
    requires (forall i :: 0 <= i < |a| ==> a[i] != 0) && forall i :: 0 <= i < |b| ==> b[i] != 0
    ensures a != b + ([0] + y)
    ensures a + ([0] + x) == b + ([0] + y) ==> a == b && x == y
  {
    var left, right := a + ([0] + x), b + ([0] + y);
    assert left[|a|] == 0 && right[|b|] == 0;
    assert (forall i :: 0 <= i < |a| ==> left[i] == a[i]) && forall i :: 0 <= i < |b| ==> right[i] == b[i];
    if left == right {
      assert |a| == |b|;
      assert a == left[..|a|] && b == right[..|b|];
      assert x == left[|a| + 1..] && y == right[|b| + 1..];
    }
  }

  /** The two kinds of messages under one key never coincide, and each determines what it was made of. */
  lemma MessagesAreDistinct(a: string, b: string, m: string, n: string)
    requires IsHex(a) && IsHex(b)
    ensures Utf8(a) != ManifestMessage(b, n)
    ensures Utf8(a) == Utf8(b) ==> a == b
    ensures ManifestMessage(a, m) == ManifestMessage(b, n) ==> a == b && m == n
  {
    hide Utf8;
    HexHasNoZero(a);
    HexHasNoZero(b);
    FirstZero(Utf8(a), Utf8(b), Utf8(m), Utf8(n));
    if Utf8(a) == Utf8(b) {
      Utf8IsInjective(a, b);
    }
    if Utf8(m) == Utf8(n) {
      Utf8IsInjective(m, n);
    }
  }

  /** A state that carries the tokens of a dump is let in, under any authority, only if it still has the
      dump's snapshot, its manifest unless manifest and token were both left out, a program that matches its
      own id, and if the authority has a key that HMAC takes for the dump's, with the digest the state names;
      and it is let in exactly then, as far as its manifest reads and its identity is free.  With the dump's
      own key digest only the dump's own key will do. */
  lemma TokensBind(hashes: Hashes, text: Text, key: seq<byte>, snapshot: seq<byte>, program: Option<seq<byte>>, capability: string,
                   args: seq<StructuredValue>, state: Dumped, authority: Option<Authority>, claims: set<seq<byte>>)
    requires Sound(hashes, text)
    requires var dump := DumpOf(hashes, text, key, snapshot, program, capability, args);
      state.token == dump.token && (state.manifestToken == dump.manifestToken || state.manifestToken.Absent?)
    ensures var dump := DumpOf(hashes, text, key, snapshot, program, capability, args);
      Admit(hashes, text, state, authority, claims).Success? <==>
        && authority.Some? && BlockKey(hashes, authority.value.key) == BlockKey(hashes, key)
        && state.keyDigest == Present(hashes.sha(authority.value.key))
        && state.snapshot == dump.snapshot && state.snapshotId == dump.snapshotId
        && !state.program.Malformed?
        && (state.program.Present? ==> state.programId == Present(hashes.sha(state.program.value)))
        && snapshot !in claims
        && (if state.manifestToken.Absent? then state.manifest.Absent?
            else state.manifest == dump.manifest && ParseManifest(Manifest(capability, args)).Some?)
    ensures var dump := DumpOf(hashes, text, key, snapshot, program, capability, args);
      Admit(hashes, text, state, authority, claims).Success? && state.keyDigest == dump.keyDigest ==> authority.value.key == key
  {
    hide ParseManifest, Manifest, ManifestMessage, IsHex, BlockKey;
    HashFacts(hashes, text, key, key);
    if authority.Some? && state.snapshot.Present? {
      HashFacts(hashes, text, authority.value.key, key);
      SnapshotTokensBind(hashes, text, key, snapshot, authority.value.key, state.snapshot.value);
      if state.manifest.Present? {
        ManifestTokensBind(hashes, text, key, authority.value.key, snapshot, text.stringify(Manifest(capability, args)), state.manifest.value);
      }
    }
    if state.program.Present? {
      HashFacts(hashes, text, state.program.value, state.program.value);
    }
    HashFacts(hashes, text, snapshot, snapshot);
  }

  lemma HashFacts(hashes: Hashes, text: Text, a: seq<byte>, b: seq<byte>)
    requires Sound(hashes, text)
    ensures hashes.sha(a) != "" && (hashes.sha(a) == hashes.sha(b) ==> a == b)
    ensures IsHex(hashes.sha(a))
  {
  }

  lemma SnapshotTokensBind(hashes: Hashes, text: Text, key: seq<byte>, snapshot: seq<byte>, key': seq<byte>, snapshot': seq<byte>)
    requires Sound(hashes, text)
    ensures SnapshotToken(hashes, key, hashes.sha(snapshot)) == SnapshotToken(hashes, key', hashes.sha(snapshot'))
      <==> BlockKey(hashes, key) == BlockKey(hashes, key') && snapshot == snapshot'
    ensures SnapshotToken(hashes, key, hashes.sha(snapshot)) != ""
  {
    if SnapshotToken(hashes, key, hashes.sha(snapshot)) == SnapshotToken(hashes, key', hashes.sha(snapshot')) {
      Utf8IsInjective(hashes.sha(snapshot), hashes.sha(snapshot'));
    }
  }

  lemma ManifestTokensBind(hashes: Hashes, text: Text, key: seq<byte>, key': seq<byte>, snapshot: seq<byte>, manifest: string,
                           manifest': string)
    requires Sound(hashes, text)
    ensures ManifestToken(hashes, key, hashes.sha(snapshot), manifest) == ManifestToken(hashes, key', hashes.sha(snapshot), manifest')
      <==> BlockKey(hashes, key) == BlockKey(hashes, key') && manifest == manifest'
    ensures ManifestToken(hashes, key, hashes.sha(snapshot), manifest) != ""
  {
    hide ManifestMessage, IsHex, BlockKey;
    HashFacts(hashes, text, snapshot, snapshot);
    MessagesAreDistinct(hashes.sha(snapshot), hashes.sha(snapshot), manifest, manifest');
  }

  /** Keys of one length, of a block or less, are told apart; otherwise trailing zero bytes are lost. */
  lemma KeysUpToPadding(hashes: Hashes, key: seq<byte>, key': seq<byte>)
    requires |key| <= |key'| <= 64
    ensures BlockKey(hashes, key) == BlockKey(hashes, key') <==> key' == key + Zeros(|key'| - |key|)
  {
    var a, b := BlockKey(hashes, key), BlockKey(hashes, key');
    assert a[..|key|] == key && b[..|key'|] == key';
    ZerosAppend(|key'| - |key|, 64 - |key'|);
    assert a == key + (Zeros(|key'| - |key|) + Zeros(64 - |key'|)) == (key + Zeros(|key'| - |key|)) + Zeros(64 - |key'|);
    assert a[..|key'|] == key + Zeros(|key'| - |key|);
  }

  lemma ZerosAppend(m: nat, n: nat)
    ensures Zeros(m) + Zeros(n) == Zeros(m + n)
  {
  }

  /** A snapshot token is never accepted as a manifest token. */
  lemma TokensAreSeparate(hashes: Hashes, text: Text, key: seq<byte>, key': seq<byte>, a: seq<byte>, b: seq<byte>, manifest: string)
    requires Sound(hashes, text)
    ensures SnapshotToken(hashes, key, hashes.sha(a)) != ManifestToken(hashes, key', hashes.sha(b), manifest)
  {
    hide ManifestMessage, IsHex;
    HashFacts(hashes, text, a, b);
    HashFacts(hashes, text, b, a);
    MessagesAreDistinct(hashes.sha(a), hashes.sha(b), "", manifest);
  }
}

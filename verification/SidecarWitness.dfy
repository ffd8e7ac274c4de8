/**
 A core in which the assumptions of `SidecarTables` hold, and in it the two requests a session answers
 although docs/SIDECAR_PROTOCOL.md has them refused.
 */
module SidecarWitness {
  import opened Wrappers
  import opened StructuredValues
  import opened BoundaryMessages
  import opened SidecarTables
  import opened SidecarTheorems

  // ------------------------------------------------------------------ digests and seeds that do not collide

  function Chars(bytes: seq<byte>): string {
    seq(|bytes|, i requires 0 <= i < |bytes| => bytes[i] as char)
  }

  lemma CharsAreInjective(a: seq<byte>, b: seq<byte>)
    ensures Chars(a) == Chars(b) ==> a == b
  {
    if Chars(a) == Chars(b) {
      assert |a| == |Chars(a)| == |Chars(b)| == |b|;
      forall i | 0 <= i < |a| ensures a[i] == b[i] {
        assert Chars(a)[i] as int == a[i] && Chars(b)[i] as int == b[i];
      }
    }
  }

  function Unary(n: nat): seq<byte> {
    if n == 0 then [0] else [1] + Unary(n - 1)
  }

  lemma {:induction false} UnaryIsPrefixFree(a: nat, b: nat, x: seq<byte>, y: seq<byte>)
    requires Unary(a) + x == Unary(b) + y
    ensures a == b && x == y
  {
    var left, right := Unary(a) + x, Unary(b) + y;
    assert left[0] == right[0];
    if a == 0 {
      assert left[1..] == x && right[1..] == y;
    } else {
      assert left[1..] == Unary(a - 1) + x && right[1..] == Unary(b - 1) + y;
      UnaryIsPrefixFree(a - 1, b - 1, x, y);
    }
  }

  function Code(numbers: seq<nat>): seq<byte> {
    if numbers == [] then [] else Unary(numbers[0]) + Code(numbers[1..])
  }

  lemma {:induction false} CodeIsPrefixFree(a: seq<nat>, b: seq<nat>, x: seq<byte>, y: seq<byte>)
    requires |a| == |b| && Code(a) + x == Code(b) + y
    ensures a == b && x == y
  {
    if a != [] {
      assert Code(a) + x == Unary(a[0]) + (Code(a[1..]) + x);
      assert Code(b) + y == Unary(b[0]) + (Code(b[1..]) + y);
      UnaryIsPrefixFree(a[0], b[0], Code(a[1..]) + x, Code(b[1..]) + y);
      CodeIsPrefixFree(a[1..], b[1..], x, y);
      assert a == [a[0]] + a[1..] && b == [b[0]] + b[1..];
    } else {
      assert [] + x == x && [] + y == y;
    }
  }

  function Scalars(text: string): (numbers: seq<nat>)
    ensures |numbers| == |text|
  {
    seq(|text|, i requires 0 <= i < |text| => text[i] as nat)
  }

  function CodeText(text: string): seq<byte> {
    Unary(|text|) + Code(Scalars(text))
  }

  lemma CodeTextIsPrefixFree(a: string, b: string, x: seq<byte>, y: seq<byte>)
    requires CodeText(a) + x == CodeText(b) + y
    ensures a == b && x == y
  {
    assert CodeText(a) + x == Unary(|a|) + (Code(Scalars(a)) + x);
    assert CodeText(b) + y == Unary(|b|) + (Code(Scalars(b)) + y);
    UnaryIsPrefixFree(|a|, |b|, Code(Scalars(a)) + x, Code(Scalars(b)) + y);
    CodeIsPrefixFree(Scalars(a), Scalars(b), x, y);
    forall i | 0 <= i < |a| ensures a[i] == b[i] {
      assert Scalars(a)[i] == a[i] as nat && Scalars(b)[i] == b[i] as nat;
    }
  }

  function CodeTexts(texts: seq<string>): seq<byte> {
    if texts == [] then [] else CodeText(texts[0]) + CodeTexts(texts[1..])
  }

  lemma {:induction false} CodeTextsIsPrefixFree(a: seq<string>, b: seq<string>, x: seq<byte>, y: seq<byte>)
    requires |a| == |b| && CodeTexts(a) + x == CodeTexts(b) + y
    ensures a == b && x == y
  {
    hide CodeText;
    if a != [] {
      assert CodeTexts(a) + x == CodeText(a[0]) + (CodeTexts(a[1..]) + x);
      assert CodeTexts(b) + y == CodeText(b[0]) + (CodeTexts(b[1..]) + y);
      CodeTextIsPrefixFree(a[0], b[0], CodeTexts(a[1..]) + x, CodeTexts(b[1..]) + y);
      CodeTextsIsPrefixFree(a[1..], b[1..], x, y);
      assert a == [a[0]] + a[1..] && b == [b[0]] + b[1..];
    } else {
      assert [] + x == x && [] + y == y;
    }
  }

  function LimitNumbers(limits: Limits<nat>): (numbers: seq<nat>)
    ensures |numbers| == 5
  {
    seq(5, i requires 0 <= i < 5 => if Fields(limits)[i].Some? then Fields(limits)[i].value + 1 else 0)
  }

  function Seed(capabilities: seq<string>, limits: Limits<nat>): seq<byte> {
    Unary(|capabilities|) + (CodeTexts(capabilities) + Code(LimitNumbers(limits)))
  }

  lemma SeedIsInjective(c: seq<string>, l: Limits<nat>, c': seq<string>, l': Limits<nat>)
    ensures Seed(c, l) == Seed(c', l') ==> c == c' && l == l'
  {
    hide CodeTexts, Code, Unary, Fields;
    if Seed(c, l) == Seed(c', l') {
      UnaryIsPrefixFree(|c|, |c'|, CodeTexts(c) + Code(LimitNumbers(l)), CodeTexts(c') + Code(LimitNumbers(l')));
      CodeTextsIsPrefixFree(c, c', Code(LimitNumbers(l)), Code(LimitNumbers(l')));
      assert Code(LimitNumbers(l)) + [] == Code(LimitNumbers(l)) && Code(LimitNumbers(l')) + [] == Code(LimitNumbers(l'));
      CodeIsPrefixFree(LimitNumbers(l), LimitNumbers(l'), [], []);
      LimitNumbersAreInjective(l, l');
    }
  }

  lemma LimitNumbersAreInjective(a: Limits<nat>, b: Limits<nat>)
    requires LimitNumbers(a) == LimitNumbers(b)
    ensures a == b
  {
    forall i | 0 <= i < 5 ensures Fields(a)[i] == Fields(b)[i] {
      assert LimitNumbers(a)[i] == LimitNumbers(b)[i];
    }
    assert a == FromFields(Fields(a)) && b == FromFields(Fields(b));
    assert Fields(a) == Fields(b);
  }

  // ------------------------------------------------------------------ a core

  /** The number of a snapshot that is `Unary` of it. */
  function Number(bytes: seq<byte>): nat {
    if bytes == [] || bytes[0] != 1 then 0 else 1 + Number(bytes[1..])
  }

  lemma {:induction false} NumberOfUnary(n: nat)
    ensures Number(Unary(n)) == n
  {
    if n > 0 {
      NumberOfUnary(n - 1);
      assert Unary(n)[1..] == Unary(n - 1);
    }
  }

  /** Every program suspends once and then completes; a snapshot is the number it is marked with. */
  function SmallCore(): Core {
    Core(source => Some([]),
         bytes => Some(Program(bytes)),
         (program, options, draw: Draw) => Some(Suspended("call", [], Snapshot(Unary(draw.nonce)))),
         (snapshot, payload, policy, draw) => Some(Completed(Null)),
         (snapshot: Snapshot) => Some(snapshot.state),
         bytes => Some(Snapshot(bytes)),
         Number,
         Chars,
         Seed,
         text => Some([]),
         TokenOf)
  }

  /** Text and key in one, read unambiguously. */
  function TokenOf(id: string, key: Content): string {
    Chars(CodeText(id) + key)
  }

  /** Tokens of the small core do not collide. */
  lemma TokensDiffer(id: string, key: Content, id': string, key': Content)
    ensures TokenOf(id, key) == TokenOf(id', key') <==> id == id' && key == key'
  {
    hide CodeText, Chars;
    CharsAreInjective(CodeText(id) + key, CodeText(id') + key');
    if CodeText(id) + key == CodeText(id') + key' {
      CodeTextIsPrefixFree(id, id', key, key');
    }
  }

  lemma SmallCoreIsFaithful()
    ensures Faithful(SmallCore()) && NoncesMark(SmallCore())
  {
    hide Chars, Seed, Number, TokenOf;
    var core := SmallCore();
    forall a, b ensures core.digest(a) == core.digest(b) ==> a == b {
      CharsAreInjective(a, b);
    }
    forall c, l, c', l' ensures core.policySeed(c, l) == core.policySeed(c', l') ==> c == c' && l == l' {
      SeedIsInjective(c, l, c', l');
    }
    forall s | core.dump(s).Some? ensures core.load(core.dump(s).value).Some? && ActsAs(core, s, core.dump(s).value) {
    }
    forall program, options, draw ensures MarkedWith(core, StartFromBytes(core, program, options, draw), draw.nonce) {
      NumberOfUnary(draw.nonce);
    }
  }

  const NO_LIMITS: Limits<nat> := Limits(None, None, None, None, None)

  const NO_OPTIONS: StartOptions := StartOptions(map[], [], NO_LIMITS)

  /** A policy with a token, and with the empty key, that names a snapshot. */
  function PolicyFor(token: string, named: string): Policy {
    Policy([], Some(NO_LIMITS), Some(""), Some(token), Some(named), Some(""))
  }

  lemma NoBytes()
    ensures Chars([]) == "" && Chars([1]) != ""
  {
    assert |Chars([1])| == 1;
  }

  lemma RunOfOne(core: Core, handled: Handled)
    ensures RunAll(core, EMPTY, [handled]) == Respond(core, EMPTY, handled.request, handled.draw).tables
  {
    hide Respond;
    assert [handled][..0] == [];
  }

  lemma NotX(n: nat)
    ensures Chars(Unary(n)) != "x"
  {
    assert Chars(Unary(n))[0] as int == Unary(n)[0] != 'x' as int;
  }

  /** After one start, resuming its snapshot by id with a policy for snapshot `x` is answered; the same
      request with the snapshot's bytes is refused. */
  lemma MisnamedPolicyIsAnswered(first: Draw, draw: Draw)
    ensures var core, bytes := SmallCore(), Unary(first.nonce);
      var tables := RunAll(core, EMPTY, [Handled(Start(PROTOCOL_VERSION, 0, None, Some([]), NO_OPTIONS), first)]);
      var request := ResumeRequest(PROTOCOL_VERSION, 1, Some(core.digest(bytes)), None, Some(PolicyFor(TokenOf(core.digest(bytes), []), "x")),
                                   None, None, ResumeCancelled);
      && Faithful(core) && NoncesMark(core)
      && Respond(core, tables, request, draw).response == StepResponse(1, CompletedStep(Null), None, None)
      && Respond(core, EMPTY, request.(snapshotBytes := Some(bytes)), draw).response == Refused(1)
  {
    hide Seed, Chars, Unary, TokenOf, Faithful, NoncesMark;
    var core, bytes := SmallCore(), Unary(first.nonce);
    var start := Handled(Start(PROTOCOL_VERSION, 0, None, Some([]), NO_OPTIONS), first);
    var id := core.digest(bytes);
    SmallCoreIsFaithful();
    NoBytes();
    NotX(first.nonce);
    var tables := RunAll(core, EMPTY, [start]);
    RunOfOne(core, start);
    assert id in tables.snapshots && tables.snapshots[id] == bytes;
  }

  /** A resume that brings its snapshot, under a policy that names it, is answered exactly when the token is
      that of the snapshot: a forged one is refused. */
  lemma ForgedTokenIsRefused(bytes: Content, token: string, draw: Draw)
    ensures var core := SmallCore();
      var id := core.digest(bytes);
      var request := ResumeRequest(PROTOCOL_VERSION, 1, Some(id), Some(bytes), Some(PolicyFor(token, id)), None, None, ResumeCancelled);
      Respond(core, EMPTY, request, draw).response ==
        if token == TokenOf(id, []) then StepResponse(1, CompletedStep(Null), None, None) else Refused(1)
    ensures "forged-token" != TokenOf(Chars(bytes), [])
  {
    hide Seed, TokenOf;
    NoBytes();
    assert "forged-token" != TokenOf(Chars(bytes), []) by { NotForged(Chars(bytes)); }
    hide Chars;
  }

  lemma NotForged(id: string)
    ensures TokenOf(id, []) != "forged-token"
  {
    assert Chars(CodeText(id) + [])[0] as int == (CodeText(id) + [])[0] == Unary(|id|)[0] != 'f' as int;
  }

  /** A start with a known program id and bytes of another program is answered. */
  lemma MismatchedBytesAreAnswered(first: Draw, draw: Draw)
    ensures var core := SmallCore();
      var tables := RunAll(core, EMPTY, [Handled(Compile(PROTOCOL_VERSION, 0, "source"), first)]);
      var request := Start(PROTOCOL_VERSION, 1, Some(""), Some([1]), NO_OPTIONS);
      && Faithful(core) && NoncesMark(core) && core.digest([1]) != ""
      && Respond(core, tables, request, draw).response.StepResponse?
  {
    hide Seed, Chars, Unary, Faithful, NoncesMark;
    var core := SmallCore();
    var compile := Handled(Compile(PROTOCOL_VERSION, 0, "source"), first);
    SmallCoreIsFaithful();
    NoBytes();
    var tables := RunAll(core, EMPTY, [compile]);
    RunOfOne(core, compile);
    assert "" in tables.programs && tables.programs[""] == [];
  }
}

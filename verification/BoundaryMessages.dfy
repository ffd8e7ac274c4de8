/**
 The three whole messages of the host boundary: start options, structured inputs and a resume
 payload.

 `Parse…` is the grammar the reader follows (crates/mustard-node/src/boundary_binary.rs:144-243)
 and keeps everything it reads, flag bytes and stray mask bits included; `Encode…` is what the host
 writes for it (lib/structured.ts:351-384 and 472-591).  Each part is read exactly as it is written.
 */
module BoundaryMessages {
  import opened Wrappers
  import opened StructuredValues
  import opened Bytes
  import opened BoundaryFormat
  import opened BoundaryReader
  import opened LimitValues

  const KIND_START_OPTIONS: byte := 1
  const KIND_STRUCTURED_INPUTS: byte := 2
  const KIND_RESUME_PAYLOAD: byte := 3

  const RESUME_VALUE: byte := 0
  const RESUME_ERROR: byte := 1
  const RESUME_CANCELLED: byte := 2

  /** Five optional limits, numbers on the host side and whole numbers on the reader's. */
  datatype Limits<T> = Limits(
    instructionBudget: Option<T>,
    heapLimitBytes: Option<T>,
    allocationBudget: Option<T>,
    callDepthLimit: Option<T>,
    maxOutstandingHostCalls: Option<T>)

  /** The limits in the order of their mask bits, lowest first. */
  function Fields<T>(limits: Limits<T>): (fields: seq<Option<T>>)
    ensures |fields| == 5
  {
    [limits.instructionBudget, limits.heapLimitBytes, limits.allocationBudget, limits.callDepthLimit,
     limits.maxOutstandingHostCalls]
  }

  function FromFields<T>(fields: seq<Option<T>>): (limits: Limits<T>)
    requires |fields| == 5
    ensures Fields(limits) == fields
  {
    Limits(fields[0], fields[1], fields[2], fields[3], fields[4])
  }

  datatype StartOptions =
    StartOptions(inputs: map<string, StructuredValue>, capabilities: seq<string>, limits: Limits<nat>)

  /** A start message as read: every entry, the mask byte and each limit's pattern. */
  datatype StartMessage =
    StartMessage(inputs: seq<Entry>, capabilities: seq<string>, mask: byte, limits: seq<Option<F64>>)

  datatype Resume =
    | ResumeValue(value: StructuredValue)
    | ResumeError(name: string, message: string, code: Option<string>, details: Option<StructuredValue>)
    | ResumeCancelled

  /** An optional part and the byte that announced it: any nonzero byte announces a part. */
  datatype Flagged<T> = Flagged(flag: byte, part: Option<T>)

  datatype ResumeMessage =
    | ValueMessage(value: StructuredValue)
    | ErrorMessage(name: string, message: string, code: Flagged<string>, details: Flagged<StructuredValue>)
    | CancelledMessage

  // ------------------------------------------------------------------ printing

  function EncodeStrings(strings: seq<string>): seq<byte> {
    if strings == [] then [] else EncodeString(strings[0]) + EncodeStrings(strings[1..])
  }

  function EncodeStringVec(strings: seq<string>): seq<byte> {
    U32(|strings|) + EncodeStrings(strings)
  }

  function EncodeInputs(entries: seq<Entry>): seq<byte> {
    U32(|entries|) + EncodeEntries(entries)
  }

  /** Bit `k` is set exactly when field `k` is present. */
  function Mask(fields: seq<Option<F64>>): nat {
    if fields == [] then 0 else (if fields[0].Some? then 1 else 0) + 2 * Mask(fields[1..])
  }

  function EncodeLimitField(field: Option<F64>): seq<byte> {
    if field.Some? then U64(field.value) else []
  }

  function EncodeLimitFields(fields: seq<Option<F64>>): seq<byte> {
    if fields == [] then []
    else EncodeLimitField(fields[0]) + EncodeLimitFields(fields[1..])
  }

  function EncodeStart(message: StartMessage): seq<byte> {
    EncodeInputs(message.inputs) + (EncodeStringVec(message.capabilities) + ([message.mask] + EncodeLimitFields(message.limits)))
  }

  function EncodeFlaggedString(part: Flagged<string>): seq<byte> {
    [part.flag] + if part.part.Some? then EncodeString(part.part.value) else []
  }

  function EncodeFlaggedValue(part: Flagged<StructuredValue>): seq<byte> {
    [part.flag] + if part.part.Some? then Encode(part.part.value) else []
  }

  function EncodeError(message: ResumeMessage): seq<byte>
    requires message.ErrorMessage?
  {
    EncodeString(message.name) +
    (EncodeString(message.message) + (EncodeFlaggedString(message.code) + EncodeFlaggedValue(message.details)))
  }

  function EncodeResume(message: ResumeMessage): seq<byte> {
    match message
    case ValueMessage(value) => [RESUME_VALUE] + Encode(value)
    case ErrorMessage(_, _, _, _) => [RESUME_ERROR] + EncodeError(message)
    case CancelledMessage => [RESUME_CANCELLED]
  }

  // ------------------------------------------------------------------ the grammar

  function ParseInputs(input: seq<byte>): Parsed<seq<Entry>> {
    match ParseU32(input)
    case Reject => Reject
    case Read(n, after) => ParseEntries(after, n, 1)
  }

  function ParseStrings(input: seq<byte>, n: nat): Parsed<seq<string>> {
    if n == 0 then Read([], input)
    else
      match ParseString(input)
      case Reject => Reject
      case Read(text, after) =>
        match ParseStrings(after, n - 1)
        case Reject => Reject
        case Read(strings, rest) => Read([text] + strings, rest)
  }

  function ParseStringVec(input: seq<byte>): Parsed<seq<string>> {
    match ParseU32(input)
    case Reject => Reject
    case Read(n, after) => ParseStrings(after, n)
  }

  function ParseByte(input: seq<byte>): Parsed<byte> {
    if input == [] then Reject else Read(input[0], input[1..])
  }

  function ParseLimitField(input: seq<byte>, present: bool): Parsed<Option<F64>> {
    if !present then Read(None, input)
    else
      match ParseF64(input)
      case Reject => Reject
      case Read(bits, rest) => Read(Some(bits), rest)
  }

  function ParseLimitFields(input: seq<byte>, mask: nat, n: nat): (parsed: Parsed<seq<Option<F64>>>)
    ensures parsed.Read? ==> |parsed.value| == n
  {
    if n == 0 then Read([], input)
    else
      match ParseLimitField(input, mask % 2 == 1)
      case Reject => Reject
      case Read(field, after) =>
        match ParseLimitFields(after, mask / 2, n - 1)
        case Reject => Reject
        case Read(fields, rest) => Read([field] + fields, rest)
  }

  function ParseStart(input: seq<byte>): (parsed: Parsed<StartMessage>)
    ensures parsed.Read? ==> |parsed.value.limits| == 5
  {
    match ParseInputs(input)
    case Reject => Reject
    case Read(inputs, afterInputs) =>
      match ParseStringVec(afterInputs)
      case Reject => Reject
      case Read(capabilities, afterCapabilities) =>
        match ParseByte(afterCapabilities)
        case Reject => Reject
        case Read(mask, afterMask) =>
          match ParseLimitFields(afterMask, mask, 5)
          case Reject => Reject
          case Read(limits, rest) => Read(StartMessage(inputs, capabilities, mask, limits), rest)
  }

  function ParseFlaggedString(input: seq<byte>): Parsed<Flagged<string>> {
    match ParseByte(input)
    case Reject => Reject
    case Read(flag, after) =>
      if flag == 0 then Read(Flagged(flag, None), after)
      else
        match ParseString(after)
        case Reject => Reject
        case Read(text, rest) => Read(Flagged(flag, Some(text)), rest)
  }

  function ParseFlaggedValue(input: seq<byte>): Parsed<Flagged<StructuredValue>> {
    match ParseByte(input)
    case Reject => Reject
    case Read(flag, after) =>
      if flag == 0 then Read(Flagged(flag, None), after)
      else
        match Parse(after, 1)
        case Reject => Reject
        case Read(value, rest) => Read(Flagged(flag, Some(value)), rest)
  }

  function ParseError(input: seq<byte>): Parsed<ResumeMessage> {
    match ParseString(input)
    case Reject => Reject
    case Read(name, afterName) =>
      match ParseString(afterName)
      case Reject => Reject
      case Read(text, afterText) =>
        match ParseFlaggedString(afterText)
        case Reject => Reject
        case Read(code, afterCode) =>
          match ParseFlaggedValue(afterCode)
          case Reject => Reject
          case Read(details, rest) => Read(ErrorMessage(name, text, code, details), rest)
  }

  function ParseResume(input: seq<byte>): Parsed<ResumeMessage> {
    if input == [] then Reject
    else if input[0] == RESUME_VALUE then
      match Parse(input[1..], 1)
      case Reject => Reject
      case Read(value, rest) => Read(ValueMessage(value), rest)
    else if input[0] == RESUME_ERROR then ParseError(input[1..])
    else if input[0] == RESUME_CANCELLED then Read(CancelledMessage, input[1..])
    else Reject
  }

  // ------------------------------------------------------------------ each part is read as it is written

  predicate InputsFit(entries: seq<Entry>) {
    |entries| < U32_LIMIT && EntriesFit(entries, 1)
  }

  predicate StringsFit(strings: seq<string>) {
    |strings| < U32_LIMIT && forall i :: 0 <= i < |strings| ==> FitsString(strings[i])
  }

  lemma StringLanguage(input: seq<byte>, text: string, rest: seq<byte>)
    ensures ParseString(input) == Read(text, rest) <==> FitsString(text) && input == EncodeString(text) + rest
  {
    ParseStringIsWritten(input);
    if FitsString(text) {
      ParseStringWritten(text, rest);
    }
  }

  lemma InputsLanguage(input: seq<byte>, entries: seq<Entry>, rest: seq<byte>)
    ensures ParseInputs(input) == Read(entries, rest) <==> InputsFit(entries) && input == EncodeInputs(entries) + rest
  {
    hide ParseU32, ParseEntries, EncodeEntries, U32;
    var tagged := [TAG_OBJECT] + input;
    assert tagged[1..] == input;
    ReadsExactlyEncodings(tagged, 0, Object(entries), rest);
    assert Encode(Object(entries)) + rest == [TAG_OBJECT] + (EncodeInputs(entries) + rest);
    assert ([TAG_OBJECT] + (EncodeInputs(entries) + rest))[1..] == EncodeInputs(entries) + rest;
  }

  lemma {:induction false} StringsLanguage(input: seq<byte>, n: nat, strings: seq<string>, rest: seq<byte>)
    ensures ParseStrings(input, n) == Read(strings, rest) <==>
      |strings| == n && input == EncodeStrings(strings) + rest && forall i :: 0 <= i < n ==> FitsString(strings[i])
    decreases n
  {
    hide ParseString, EncodeString, FitsString;
    if n > 0 {
      var parsed := ParseString(input);
      if parsed.Read? {
        StringLanguage(input, parsed.value, parsed.rest);
        var tail := ParseStrings(parsed.rest, n - 1);
        if tail.Read? {
          StringsLanguage(parsed.rest, n - 1, tail.value, tail.rest);
          assert ([parsed.value] + tail.value)[1..] == tail.value;
          assert input == EncodeStrings([parsed.value] + tail.value) + tail.rest;
        }
      }
      if |strings| == n && input == EncodeStrings(strings) + rest && forall i :: 0 <= i < n ==> FitsString(strings[i]) {
        assert input == EncodeString(strings[0]) + (EncodeStrings(strings[1..]) + rest);
        StringLanguage(input, strings[0], EncodeStrings(strings[1..]) + rest);
        StringsLanguage(EncodeStrings(strings[1..]) + rest, n - 1, strings[1..], rest);
        assert [strings[0]] + strings[1..] == strings;
      }
    }
  }

  lemma U32Language(input: seq<byte>, n: nat, rest: seq<byte>)
    ensures ParseU32(input) == Read(n, rest) <==> n < U32_LIMIT && input == U32(n) + rest
  {
    ParseU32IsWritten(input);
    if n < U32_LIMIT {
      ParseU32Written(n, rest);
    }
  }

  lemma StringVecLanguage(input: seq<byte>, strings: seq<string>, rest: seq<byte>)
    ensures ParseStringVec(input) == Read(strings, rest) <==> StringsFit(strings) && input == EncodeStringVec(strings) + rest
  {
    hide ParseU32, U32, ParseStrings, EncodeStrings, FitsString;
    var parsed := ParseU32(input);
    if parsed.Read? {
      U32Language(input, parsed.value, parsed.rest);
      StringsLanguage(parsed.rest, parsed.value, strings, rest);
    }
    if StringsFit(strings) && input == EncodeStringVec(strings) + rest {
      assert input == U32(|strings|) + (EncodeStrings(strings) + rest);
      U32Language(input, |strings|, EncodeStrings(strings) + rest);
      StringsLanguage(EncodeStrings(strings) + rest, |strings|, strings, rest);
    }
  }

  lemma F64Language(input: seq<byte>, bits: F64, rest: seq<byte>)
    ensures ParseF64(input) == Read(bits, rest) <==> input == U64(bits) + rest
  {
    if |input| >= 8 {
      FixedWidthLE(0, input[..8]);
      assert input == input[..8] + input[8..];
    }
    F64RoundTrip(bits);
    assert (U64(bits) + rest)[..8] == U64(bits) && (U64(bits) + rest)[8..] == rest;
  }

  /** The bits of `mask` say which fields are present. */
  predicate Selects(mask: nat, fields: seq<Option<F64>>) {
    fields == [] || ((fields[0].Some? <==> mask % 2 == 1) && Selects(mask / 2, fields[1..]))
  }

  lemma LimitFieldLanguage(input: seq<byte>, present: bool, field: Option<F64>, rest: seq<byte>)
    ensures ParseLimitField(input, present) == Read(field, rest) <==>
      (field.Some? <==> present) && input == EncodeLimitField(field) + rest
  {
    if field.Some? {
      F64Language(input, field.value, rest);
    } else {
      assert [] + rest == rest;
    }
  }

  lemma {:induction false} LimitFieldsLanguage(input: seq<byte>, mask: nat, n: nat, fields: seq<Option<F64>>, rest: seq<byte>)
    ensures ParseLimitFields(input, mask, n) == Read(fields, rest) <==>
      |fields| == n && Selects(mask, fields) && input == EncodeLimitFields(fields) + rest
    decreases n
  {
    hide ParseLimitField, EncodeLimitField;
    if n > 0 {
      var parsed := ParseLimitField(input, mask % 2 == 1);
      if parsed.Read? {
        LimitFieldLanguage(input, mask % 2 == 1, parsed.value, parsed.rest);
        var tail := ParseLimitFields(parsed.rest, mask / 2, n - 1);
        if tail.Read? {
          LimitFieldsLanguage(parsed.rest, mask / 2, n - 1, tail.value, tail.rest);
          FirstLimitField(parsed.value, tail.value, tail.rest);
        }
      }
      if |fields| == n && Selects(mask, fields) && input == EncodeLimitFields(fields) + rest {
        assert fields == [fields[0]] + fields[1..];
        FirstLimitField(fields[0], fields[1..], rest);
        LimitFieldLanguage(input, mask % 2 == 1, fields[0], EncodeLimitFields(fields[1..]) + rest);
        LimitFieldsLanguage(EncodeLimitFields(fields[1..]) + rest, mask / 2, n - 1, fields[1..], rest);
      }
    }
  }

  lemma FirstLimitField(field: Option<F64>, fields: seq<Option<F64>>, rest: seq<byte>)
    ensures ([field] + fields)[1..] == fields
    ensures EncodeLimitFields([field] + fields) + rest == EncodeLimitField(field) + (EncodeLimitFields(fields) + rest)
  {
    hide EncodeLimitField;
    assert ([field] + fields)[1..] == fields;
  }

  /** A mask without stray bits is the mask of the fields it selects. */
  lemma {:induction false} MaskSelects(mask: nat, fields: seq<Option<F64>>)
    ensures Selects(mask, fields) && mask < Pow2(|fields|) <==> mask == Mask(fields)
  {
    if fields != [] {
      MaskSelects(mask / 2, fields[1..]);
    }
  }

  lemma MaskIsFiveBits(fields: seq<Option<F64>>)
    requires |fields| == 5
    ensures Mask(fields) < 32
  {
    MaskSelects(Mask(fields), fields);
  }

  // ------------------------------------------------------------------ a whole message is read as it is written

  predicate StartFits(message: StartMessage) {
    && InputsFit(message.inputs) && StringsFit(message.capabilities)
    && |message.limits| == 5 && Selects(message.mask, message.limits)
  }

  lemma StartIsWritten(input: seq<byte>)
    ensures ParseStart(input).Read? ==>
      StartFits(ParseStart(input).value) && input == EncodeStart(ParseStart(input).value) + ParseStart(input).rest
  {
    hide ParseInputs, EncodeInputs, ParseStringVec, EncodeStringVec, ParseLimitFields, EncodeLimitFields, InputsFit, StringsFit, Selects;
    if ParseStart(input).Read? {
      var whole := ParseStart(input);
      var inputs := ParseInputs(input);
      InputsLanguage(input, inputs.value, inputs.rest);
      var capabilities := ParseStringVec(inputs.rest);
      StringVecLanguage(inputs.rest, capabilities.value, capabilities.rest);
      var mask := ParseByte(capabilities.rest);
      LimitFieldsLanguage(mask.rest, mask.value, 5, whole.value.limits, whole.rest);
      assert capabilities.rest == ([mask.value] + EncodeLimitFields(whole.value.limits)) + whole.rest;
      assert inputs.rest ==
        (EncodeStringVec(capabilities.value) + ([mask.value] + EncodeLimitFields(whole.value.limits))) + whole.rest;
    }
  }

  lemma StartIsReadBack(message: StartMessage, rest: seq<byte>)
    requires StartFits(message)
    ensures ParseStart(EncodeStart(message) + rest) == Read(message, rest)
  {
    hide ParseInputs, EncodeInputs, ParseStringVec, EncodeStringVec, ParseLimitFields, EncodeLimitFields, InputsFit, StringsFit, Selects;
    var afterMask := EncodeLimitFields(message.limits) + rest;
    var afterCapabilities := [message.mask] + afterMask;
    var afterInputs := EncodeStringVec(message.capabilities) + afterCapabilities;
    assert EncodeStart(message) + rest == EncodeInputs(message.inputs) + afterInputs;
    InputsLanguage(EncodeStart(message) + rest, message.inputs, afterInputs);
    StringVecLanguage(afterInputs, message.capabilities, afterCapabilities);
    assert afterCapabilities[1..] == afterMask;
    LimitFieldsLanguage(afterMask, message.mask, 5, message.limits, rest);
  }

  predicate FlagMatches<T>(part: Flagged<T>) {
    part.flag == 0 <==> part.part.None?
  }

  predicate FlaggedStringFits(part: Flagged<string>) {
    FlagMatches(part) && (part.part.Some? ==> FitsString(part.part.value))
  }

  predicate FlaggedValueFits(part: Flagged<StructuredValue>) {
    FlagMatches(part) && (part.part.Some? ==> Fits(part.part.value, 1))
  }

  predicate ResumeFits(message: ResumeMessage) {
    match message
    case ValueMessage(value) => Fits(value, 1)
    case ErrorMessage(name, text, code, details) =>
      FitsString(name) && FitsString(text) && FlaggedStringFits(code) && FlaggedValueFits(details)
    case CancelledMessage => true
  }

  lemma FlaggedStringLanguage(input: seq<byte>, part: Flagged<string>, rest: seq<byte>)
    ensures ParseFlaggedString(input) == Read(part, rest) <==>
      FlaggedStringFits(part) && input == EncodeFlaggedString(part) + rest
  {
    hide ParseString, EncodeString, FitsString;
    var written := EncodeFlaggedString(part) + rest;
    assert written[1..] == if part.part.Some? then EncodeString(part.part.value) + rest else rest;
    if input != [] && input[0] != 0 {
      var text := ParseString(input[1..]);
      if text.Read? {
        StringLanguage(input[1..], text.value, text.rest);
      }
      if part.part.Some? {
        StringLanguage(input[1..], part.part.value, rest);
      }
    }
  }

  lemma FlaggedValueLanguage(input: seq<byte>, part: Flagged<StructuredValue>, rest: seq<byte>)
    ensures ParseFlaggedValue(input) == Read(part, rest) <==>
      FlaggedValueFits(part) && input == EncodeFlaggedValue(part) + rest
  {
    hide Parse, Encode, Fits;
    var written := EncodeFlaggedValue(part) + rest;
    assert written[1..] == if part.part.Some? then Encode(part.part.value) + rest else rest;
    if input != [] && input[0] != 0 {
      var value := Parse(input[1..], 1);
      if value.Read? {
        ReadsExactlyEncodings(input[1..], 1, value.value, value.rest);
      }
      if part.part.Some? {
        ReadsExactlyEncodings(input[1..], 1, part.part.value, rest);
      }
    }
  }

  lemma ErrorIsWritten(input: seq<byte>)
    ensures ParseError(input).Read? ==>
      && ParseError(input).value.ErrorMessage? && ResumeFits(ParseError(input).value)
      && input == EncodeError(ParseError(input).value) + ParseError(input).rest
  {
    hide ParseString, EncodeString, FitsString, ParseFlaggedString, ParseFlaggedValue, EncodeFlaggedString,
      EncodeFlaggedValue, FlaggedStringFits, FlaggedValueFits;
    var whole := ParseError(input);
    if whole.Read? {
      var name := ParseString(input);
      StringLanguage(input, name.value, name.rest);
      var text := ParseString(name.rest);
      StringLanguage(name.rest, text.value, text.rest);
      var code := ParseFlaggedString(text.rest);
      FlaggedStringLanguage(text.rest, code.value, code.rest);
      FlaggedValueLanguage(code.rest, whole.value.details, whole.rest);
      var tail := EncodeFlaggedString(code.value) + EncodeFlaggedValue(whole.value.details);
      assert text.rest == tail + whole.rest;
      assert name.rest == (EncodeString(text.value) + tail) + whole.rest;
    }
  }

  lemma ErrorIsReadBack(message: ResumeMessage, rest: seq<byte>)
    requires message.ErrorMessage? && ResumeFits(message)
    ensures ParseError(EncodeError(message) + rest) == Read(message, rest)
  {
    hide ParseString, EncodeString, FitsString, ParseFlaggedString, ParseFlaggedValue, EncodeFlaggedString,
      EncodeFlaggedValue, FlaggedStringFits, FlaggedValueFits;
    var afterCode := EncodeFlaggedValue(message.details) + rest;
    var afterText := EncodeFlaggedString(message.code) + afterCode;
    var afterName := EncodeString(message.message) + afterText;
    assert EncodeError(message) + rest == EncodeString(message.name) + afterName;
    StringLanguage(EncodeError(message) + rest, message.name, afterName);
    StringLanguage(afterName, message.message, afterText);
    FlaggedStringLanguage(afterText, message.code, afterCode);
    FlaggedValueLanguage(afterCode, message.details, rest);
  }

  lemma ResumeIsWritten(input: seq<byte>)
    ensures ParseResume(input).Read? ==>
      ResumeFits(ParseResume(input).value) && input == EncodeResume(ParseResume(input).value) + ParseResume(input).rest
  {
    hide ParseString, EncodeString, Parse, Encode, Fits, ParseError, EncodeFlaggedString, EncodeFlaggedValue;
    if ParseResume(input).Read? {
      var tail, parsed := input[1..], ParseResume(input);
      assert input == [input[0]] + tail;
      if input[0] == RESUME_VALUE {
        ReadsExactlyEncodings(tail, 1, parsed.value.value, parsed.rest);
      } else {
        ErrorIsWritten(tail);
      }
    }
  }

  lemma ResumeIsReadBack(message: ResumeMessage, rest: seq<byte>)
    requires ResumeFits(message)
    ensures ParseResume(EncodeResume(message) + rest) == Read(message, rest)
  {
    hide ParseString, EncodeString, Parse, Encode, Fits, ParseError, EncodeError, FitsString, FlaggedStringFits, FlaggedValueFits;
    match message
    case ValueMessage(value) =>
      TagThenBody(RESUME_VALUE, Encode(value), rest);
      ReadsExactlyEncodings(Encode(value) + rest, 1, value, rest);
    case ErrorMessage(_, _, _, _) =>
      TagThenBody(RESUME_ERROR, EncodeError(message), rest);
      ErrorIsReadBack(message, rest);
    case CancelledMessage =>
      TagThenBody(RESUME_CANCELLED, [], rest);
      assert [] + rest == rest && [RESUME_CANCELLED] + [] == [RESUME_CANCELLED];
  }
}

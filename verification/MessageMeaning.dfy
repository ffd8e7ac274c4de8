/**
 What a complete boundary message means to the reader
 (crates/mustard-node/src/boundary_binary.rs:33-63), and that this is what the host meant.
 */
module MessageMeaning {
  import opened Wrappers
  import opened StructuredValues
  import opened Bytes
  import opened BoundaryFormat
  import opened BoundaryReader
  import opened LimitValues
  import opened BoundaryMessages
  import opened HostBoundary

  // ------------------------------------------------------------------ the reader's side

  function Header(kind: byte): seq<byte> {
    MAGIC + [kind]
  }

  function Body(bytes: seq<byte>, kind: byte): Option<seq<byte>> {
    if |bytes| >= 5 && bytes[..5] == Header(kind) then Some(bytes[5..]) else None
  }

  /** A parse that leaves nothing over. */
  function Complete<T>(parsed: Parsed<T>): Option<T> {
    if parsed.Read? && parsed.rest == [] then Some(parsed.value) else None
  }

  function AllLimits(fields: seq<Option<F64>>): (values: Option<seq<Option<nat>>>)
    ensures values.Some? ==> |values.value| == |fields|
  {
    if fields == [] then Some([])
    else if fields[0].Some? && LimitValue(fields[0].value).None? then None
    else
      match AllLimits(fields[1..])
      case None => None
      case Some(values) => Some([if fields[0].Some? then LimitValue(fields[0].value) else None] + values)
  }

  function ToMap(entries: seq<Entry>): map<string, StructuredValue> {
    if entries == [] then map[]
    else ToMap(entries[..|entries| - 1])[entries[|entries| - 1].key := entries[|entries| - 1].value]
  }

  function StartMeaning(message: StartMessage): Option<StartOptions>
    requires |message.limits| == 5
  {
    match AllLimits(message.limits)
    case None => None
    case Some(limits) =>
      Some(StartOptions(ToMap(CollapseOnto([], message.inputs)), message.capabilities, FromFields(limits)))
  }

  function ResumeMeaning(message: ResumeMessage): Resume {
    match message
    case ValueMessage(value) => ResumeValue(Collapse(value))
    case ErrorMessage(name, text, code, details) =>
      ResumeError(name, text, code.part, if details.part.Some? then Some(Collapse(details.part.value)) else None)
    case CancelledMessage => ResumeCancelled
  }

  /** `decode_start_options_bytes`. */
  function DecodeStartOptions(bytes: seq<byte>): Option<StartOptions> {
    match Body(bytes, KIND_START_OPTIONS)
    case None => None
    case Some(body) =>
      if Complete(ParseStart(body)).Some? then StartMeaning(ParseStart(body).value) else None
  }

  /** `decode_structured_inputs_bytes`. */
  function DecodeInputs(bytes: seq<byte>): Option<seq<Entry>> {
    match Body(bytes, KIND_STRUCTURED_INPUTS)
    case None => None
    case Some(body) =>
      if Complete(ParseInputs(body)).Some? then Some(CollapseOnto([], ParseInputs(body).value)) else None
  }

  /** `decode_resume_payload_bytes`. */
  function DecodeResume(bytes: seq<byte>): Option<Resume> {
    match Body(bytes, KIND_RESUME_PAYLOAD)
    case None => None
    case Some(body) =>
      if Complete(ParseResume(body)).Some? then Some(ResumeMeaning(ParseResume(body).value)) else None
  }

  // ------------------------------------------------------------------ the host's side

  function StartMessageOf(inputs: seq<Entry>, capabilities: seq<string>, limits: Limits<F64>): StartMessage {
    MaskIsFiveBits(Fields(limits));
    StartMessage(inputs, capabilities, Mask(Fields(limits)), Fields(limits))
  }

  function FlagOf<T>(part: Option<T>): Flagged<T> {
    Flagged(if part.Some? then 1 else 0, part)
  }

  function ResumeMessageOf(resume: Resume): ResumeMessage {
    match resume
    case ResumeValue(value) => ValueMessage(value)
    case ResumeError(name, message, code, details) => ErrorMessage(name, message, FlagOf(code), FlagOf(details))
    case ResumeCancelled => CancelledMessage
  }

  function StartBytes(inputs: seq<Entry>, capabilities: seq<string>, limits: Limits<F64>): seq<byte> {
    Header(KIND_START_OPTIONS) + EncodeStart(StartMessageOf(inputs, capabilities, limits))
  }

  function InputsBytes(inputs: seq<Entry>): seq<byte> {
    Header(KIND_STRUCTURED_INPUTS) + EncodeInputs(inputs)
  }

  function ResumeBytes(resume: Resume): seq<byte> {
    Header(KIND_RESUME_PAYLOAD) + EncodeResume(ResumeMessageOf(resume))
  }

  lemma BodyLanguage(bytes: seq<byte>, kind: byte, body: seq<byte>)
    ensures Body(bytes, kind) == Some(body) <==> bytes == Header(kind) + body
  {
    assert (Header(kind) + body)[..5] == Header(kind) && (Header(kind) + body)[5..] == body;
  }

  // ------------------------------------------------------------------ inputs as a map

  /** With distinct keys, the map holds exactly the entries. */
  lemma {:induction false} MapHoldsEntries(entries: seq<Entry>)
    requires KeysDiffer(entries)
    ensures forall key, value :: key in ToMap(entries) && ToMap(entries)[key] == value <==> Entry(key, value) in entries
  {
    if entries != [] {
      var n := |entries| - 1;
      MapHoldsEntries(entries[..n]);
      assert entries == entries[..n] + [entries[n]];
      forall key, value
        ensures key in ToMap(entries) && ToMap(entries)[key] == value <==> Entry(key, value) in entries
      {
        assert Entry(key, value) in entries <==> Entry(key, value) in entries[..n] || Entry(key, value) == entries[n];
        assert forall i :: 0 <= i < n ==> entries[..n][i].key != entries[n].key;
      }
    }
  }

  // ------------------------------------------------------------------ round trips

  /** Lengths and arrays are within bounds; only nesting may be too deep for the reader. */
  predicate EntriesSized(entries: seq<Entry>) {
    && |entries| < U32_LIMIT
    && forall i :: 0 <= i < |entries| ==> FitsString(entries[i].key) && Sized(entries[i].value) && ArraysFit(entries[i].value)
  }

  lemma InputsAreReadIfTheyFit(inputs: seq<Entry>, rest: seq<byte>)
    requires EntriesSized(inputs)
    ensures ParseInputs(EncodeInputs(inputs) + rest) == if InputsFit(inputs) then Read(inputs, rest) else Reject
  {
    hide ParseU32, U32, EncodeEntries, ParseEntries, Sized, ArraysFit, Fits, FitsString;
    InputsLanguage(EncodeInputs(inputs) + rest, inputs, rest);
    if !InputsFit(inputs) {
      var after := EncodeEntries(inputs) + rest;
      assert EncodeInputs(inputs) + rest == U32(|inputs|) + after;
      ParseU32Written(|inputs|, after);
      assert exists i :: 0 <= i < |inputs| && !Fits(inputs[i].value, 1);
      TooDeepEntriesAreRejected(inputs, 1, rest);
    }
  }

  /** A start message reaches the reader as it was meant: inputs as a map, capabilities in order and
      each limit in its place; it is refused exactly when an input is too deep or a limit is not a
      whole number in range. */
  lemma StartOptionsRoundTrip(inputs: seq<Entry>, capabilities: seq<string>, limits: Limits<F64>)
    requires DistinctKeys(Object(inputs)) && EntriesSized(inputs) && StringsFit(capabilities)
    ensures DecodeStartOptions(StartBytes(inputs, capabilities, limits)) ==
      if InputsFit(inputs) && AllLimits(Fields(limits)).Some?
      then Some(StartOptions(ToMap(inputs), capabilities, FromFields(AllLimits(Fields(limits)).value)))
      else None
  {
    hide ParseInputs, EncodeInputs, ParseStringVec, EncodeStringVec, ParseLimitFields, EncodeLimitFields,
      InputsFit, StringsFit, AllLimits, ToMap, DistinctKeys, EntriesSized, Mask, Selects, CollapseOnto, Fields, FromFields;
    var message := StartMessageOf(inputs, capabilities, limits);
    MaskIsFiveBits(Fields(limits));
    MaskSelects(Mask(Fields(limits)), Fields(limits));
    BodyLanguage(StartBytes(inputs, capabilities, limits), KIND_START_OPTIONS, EncodeStart(message));
    assert [] + inputs == inputs;
    CollapseOntoKeepsDistinct([], inputs);
    if InputsFit(inputs) {
      StartIsReadBack(message, []);
      assert EncodeStart(message) + [] == EncodeStart(message);
    } else {
      InputsAreReadIfTheyFit(inputs, EncodeStringVec(capabilities) + ([message.mask] + EncodeLimitFields(message.limits)));
    }
  }

  /** Structured inputs reach the reader in order, and are refused exactly when one is too deep. */
  lemma StructuredInputsRoundTrip(inputs: seq<Entry>)
    requires DistinctKeys(Object(inputs)) && EntriesSized(inputs)
    ensures DecodeInputs(InputsBytes(inputs)) == if InputsFit(inputs) then Some(inputs) else None
  {
    hide ParseInputs, EncodeInputs, InputsFit, DistinctKeys, EntriesSized, CollapseOnto;
    BodyLanguage(InputsBytes(inputs), KIND_STRUCTURED_INPUTS, EncodeInputs(inputs));
    assert [] + inputs == inputs;
    CollapseOntoKeepsDistinct([], inputs);
    InputsAreReadIfTheyFit(inputs, []);
    assert EncodeInputs(inputs) + [] == EncodeInputs(inputs);
  }

  predicate ResumeDistinct(resume: Resume) {
    match resume
    case ResumeValue(value) => DistinctKeys(value)
    case ResumeError(_, _, _, details) => details.Some? ==> DistinctKeys(details.value)
    case ResumeCancelled => true
  }

  /** Lengths and arrays are within bounds; only nesting may be too deep for the reader. */
  predicate ResumeSized(resume: Resume) {
    match resume
    case ResumeValue(value) => Sized(value) && ArraysFit(value)
    case ResumeError(name, message, code, details) =>
      && FitsString(name) && FitsString(message) && (code.Some? ==> FitsString(code.value))
      && (details.Some? ==> Sized(details.value) && ArraysFit(details.value))
    case ResumeCancelled => true
  }

  /** A resume payload reaches the reader as it was meant, and is refused exactly when its value is
      too deep. */
  lemma ResumeRoundTrip(resume: Resume)
    requires ResumeDistinct(resume) && ResumeSized(resume)
    ensures DecodeResume(ResumeBytes(resume)) == if ResumeFits(ResumeMessageOf(resume)) then Some(resume) else None
  {
    hide ParseResume, EncodeResume, DistinctKeys, Collapse, ResumeFits, Sized, ArraysFit;
    var message := ResumeMessageOf(resume);
    BodyLanguage(ResumeBytes(resume), KIND_RESUME_PAYLOAD, EncodeResume(message));
    assert EncodeResume(message) + [] == EncodeResume(message);
    if ResumeFits(message) {
      ResumeIsReadBack(message, []);
      match resume
      case ResumeValue(value) => CollapseKeepsDistinct(value);
      case ResumeError(_, _, _, details) => if details.Some? { CollapseKeepsDistinct(details.value); }
      case ResumeCancelled =>
    } else {
      TooDeepResumeIsRefused(resume);
    }
  }

  lemma TooDeepResumeIsRefused(resume: Resume)
    requires ResumeSized(resume) && !ResumeFits(ResumeMessageOf(resume))
    ensures ParseResume(EncodeResume(ResumeMessageOf(resume))).Reject?
  {
    hide ParseString, EncodeString, FitsString, ParseFlaggedString, EncodeFlaggedString, Parse, Encode, Fits, Sized, ArraysFit;
    var message := ResumeMessageOf(resume);
    var input := EncodeResume(message);
    match resume
    case ResumeValue(value) =>
      assert input[1..] == Encode(value) + [];
      TooDeepIsRejected(value, 1, []);
    case ResumeError(name, text, code, details) =>
      assert details.Some? && !Fits(details.value, 1);
      var last := EncodeFlaggedValue(message.details);
      assert last[1..] == Encode(details.value) + [];
      TooDeepIsRejected(details.value, 1, []);
      FlaggedStringLanguage(EncodeFlaggedString(message.code) + last, message.code, last);
      StringLanguage(EncodeString(text) + (EncodeFlaggedString(message.code) + last), text, EncodeFlaggedString(message.code) + last);
      StringLanguage(EncodeError(message), name, EncodeString(text) + (EncodeFlaggedString(message.code) + last));
      assert input[1..] == EncodeError(message);
    case ResumeCancelled =>
  }

  // ------------------------------------------------------------------ complete messages

  /** No accepted message is a strict prefix of another: cutting one short or appending anything
      to it makes the reader refuse it. */
  lemma MessagesAreSelfDelimiting(bytes: seq<byte>, more: seq<byte>)
    requires more != []
    ensures DecodeStartOptions(bytes).None? || DecodeStartOptions(bytes + more).None?
    ensures DecodeInputs(bytes).None? || DecodeInputs(bytes + more).None?
    ensures DecodeResume(bytes).None? || DecodeResume(bytes + more).None?
  {
    hide ParseStart, EncodeStart, ParseInputs, EncodeInputs, ParseResume, EncodeResume, StartMeaning, ResumeMeaning, CollapseOnto,
      StartFits, InputsFit, ResumeFits;
    if |bytes| >= 5 {
      var body := bytes[5..];
      assert (bytes + more)[..5] == bytes[..5] && (bytes + more)[5..] == body + more;
      if Complete(ParseStart(body)).Some? {
        StartExtends(body, more);
      }
      if Complete(ParseInputs(body)).Some? {
        InputsExtend(body, more);
      }
      if Complete(ParseResume(body)).Some? {
        ResumeExtends(body, more);
      }
    }
  }

  lemma StartExtends(body: seq<byte>, more: seq<byte>)
    requires Complete(ParseStart(body)).Some?
    ensures ParseStart(body + more) == Read(ParseStart(body).value, more)
  {
    hide ParseStart, EncodeStart, StartFits;
    StartIsWritten(body);
    assert body == EncodeStart(ParseStart(body).value);
    StartIsReadBack(ParseStart(body).value, more);
  }

  lemma InputsExtend(body: seq<byte>, more: seq<byte>)
    requires Complete(ParseInputs(body)).Some?
    ensures ParseInputs(body + more) == Read(ParseInputs(body).value, more)
  {
    hide ParseInputs, EncodeInputs, InputsFit;
    var entries := ParseInputs(body).value;
    InputsLanguage(body, entries, []);
    assert body == EncodeInputs(entries);
    InputsLanguage(body + more, entries, more);
  }

  lemma ResumeExtends(body: seq<byte>, more: seq<byte>)
    requires Complete(ParseResume(body)).Some?
    ensures ParseResume(body + more) == Read(ParseResume(body).value, more)
  {
    hide ParseResume, EncodeResume, ResumeFits;
    ResumeIsWritten(body);
    assert body == EncodeResume(ParseResume(body).value);
    ResumeIsReadBack(ParseResume(body).value, more);
  }

  // ------------------------------------------------------------------ canonical messages

  /** Writing back the structured inputs the reader built gives the same bytes exactly when no
      object in the message, nor the message itself, repeated a key. */
  lemma ReencodingInputsIsExact(body: seq<byte>)
    requires Complete(ParseInputs(body)).Some?
    ensures InputsBytes(DecodeInputs(Header(KIND_STRUCTURED_INPUTS) + body).value) == Header(KIND_STRUCTURED_INPUTS) + body
      <==> DistinctKeys(Object(ParseInputs(body).value))
  {
    hide ParseInputs, InputsFit, CollapseOnto, DistinctKeys;
    var entries := ParseInputs(body).value;
    BodyLanguage(Header(KIND_STRUCTURED_INPUTS) + body, KIND_STRUCTURED_INPUTS, body);
    InputsLanguage(body, entries, []);
    assert body == EncodeInputs(entries);
    ReencodedEntries(entries);
    var collapsed := CollapseOnto([], entries);
    assert (Header(KIND_STRUCTURED_INPUTS) + EncodeInputs(collapsed))[5..] == EncodeInputs(collapsed);
  }

  /** Collapsing keeps the encoding of entries exactly when it keeps the entries. */
  lemma ReencodedEntries(entries: seq<Entry>)
    requires InputsFit(entries)
    ensures EncodeInputs(CollapseOnto([], entries)) == EncodeInputs(entries) <==> DistinctKeys(Object(entries))
  {
    hide Parse, EncodeInputs, CollapseOnto, DistinctKeys;
    var collapsed := CollapseOnto([], entries);
    assert [] + entries == entries;
    if DistinctKeys(Object(entries)) {
      CollapseOntoKeepsDistinct([], entries);
    } else {
      CollapseOntoIsDistinct([], entries);
      CollapseOntoFits([], entries, 1);
      InputsLanguage(EncodeInputs(entries), entries, []);
      InputsLanguage(EncodeInputs(collapsed), collapsed, []);
      assert EncodeInputs(entries) + [] == EncodeInputs(entries);
      assert EncodeInputs(collapsed) + [] == EncodeInputs(collapsed);
    }
  }

  predicate CanonicalResume(message: ResumeMessage) {
    match message
    case ValueMessage(value) => DistinctKeys(value)
    case ErrorMessage(_, _, code, details) =>
      && code.flag <= 1 && details.flag <= 1
      && (details.part.Some? ==> DistinctKeys(details.part.value))
    case CancelledMessage => true
  }

  /** Writing back a resume payload gives the same bytes exactly when its flags were 0 or 1 and no
      object in it repeated a key. */
  lemma ReencodingResumeIsExact(body: seq<byte>)
    requires Complete(ParseResume(body)).Some?
    ensures ResumeBytes(DecodeResume(Header(KIND_RESUME_PAYLOAD) + body).value) == Header(KIND_RESUME_PAYLOAD) + body
      <==> CanonicalResume(ParseResume(body).value)
  {
    hide ParseResume, EncodeResume, ResumeMeaning, ResumeMessageOf, CanonicalResume, ResumeFits;
    var bytes, message := Header(KIND_RESUME_PAYLOAD) + body, ParseResume(body).value;
    BodyLanguage(bytes, KIND_RESUME_PAYLOAD, body);
    ResumeIsWritten(body);
    assert body == EncodeResume(message);
    var back := ResumeMessageOf(ResumeMeaning(message));
    ResumeMeaningFits(message);
    ResumeIsReadBack(message, []);
    ResumeIsReadBack(back, []);
    assert EncodeResume(message) + [] == EncodeResume(message);
    assert EncodeResume(back) + [] == EncodeResume(back);
    assert (Header(KIND_RESUME_PAYLOAD) + EncodeResume(back))[5..] == EncodeResume(back);
    ResumeMeaningKeepsCanonical(message);
  }

  lemma ResumeMeaningFits(message: ResumeMessage)
    requires ResumeFits(message)
    ensures ResumeFits(ResumeMessageOf(ResumeMeaning(message)))
  {
    match message
    case ValueMessage(value) => CollapseFits(value, 1);
    case ErrorMessage(_, _, _, details) => if details.part.Some? { CollapseFits(details.part.value, 1); }
    case CancelledMessage =>
  }

  lemma CollapseIsIdentityOnDistinct(value: StructuredValue)
    ensures Collapse(value) == value <==> DistinctKeys(value)
  {
    CollapseIsDistinct(value);
    if DistinctKeys(value) {
      CollapseKeepsDistinct(value);
    }
  }

  lemma ResumeMeaningKeepsCanonical(message: ResumeMessage)
    requires ResumeFits(message)
    ensures ResumeMessageOf(ResumeMeaning(message)) == message <==> CanonicalResume(message)
  {
    hide Collapse, DistinctKeys, Fits;
    match message
    case ValueMessage(value) => CollapseIsIdentityOnDistinct(value);
    case ErrorMessage(_, _, _, details) => if details.part.Some? { CollapseIsIdentityOnDistinct(details.part.value); }
    case CancelledMessage =>
  }

  /** Writing back a start message gives the same bytes exactly when its mask had no stray bit and
      no object in it repeated a key. */
  lemma ReencodingStartIsExact(body: seq<byte>)
    requires Complete(ParseStart(body)).Some?
    ensures var message := ParseStart(body).value;
      StartBytes(CollapseOnto([], message.inputs), message.capabilities, FromFields(message.limits))
      == Header(KIND_START_OPTIONS) + body
      <==> message.mask < 32 && DistinctKeys(Object(message.inputs))
  {
    hide ParseStart, EncodeStart, CollapseOnto, InputsFit, DistinctKeys, Mask, Selects, FromFields, Fields, StringsFit;
    var message := ParseStart(body).value;
    var collapsed := CollapseOnto([], message.inputs);
    var back := StartMessageOf(collapsed, message.capabilities, FromFields(message.limits));
    StartIsWritten(body);
    assert body == EncodeStart(message);
    CollapsedInputsFit(message.inputs);
    MaskSelects(message.mask, message.limits);
    MaskSelects(back.mask, message.limits);
    StartIsReadBack(message, []);
    StartIsReadBack(back, []);
    assert EncodeStart(message) + [] == EncodeStart(message);
    assert EncodeStart(back) + [] == EncodeStart(back);
    assert (Header(KIND_START_OPTIONS) + EncodeStart(back))[5..] == EncodeStart(back);
    assert (Header(KIND_START_OPTIONS) + body)[5..] == body;
  }

  lemma CollapsedInputsFit(inputs: seq<Entry>)
    requires InputsFit(inputs)
    ensures InputsFit(CollapseOnto([], inputs))
    ensures CollapseOnto([], inputs) == inputs <==> DistinctKeys(Object(inputs))
  {
    CollapseOntoFits([], inputs, 1);
    CollapseOntoIsDistinct([], inputs);
    if DistinctKeys(Object(inputs)) {
      assert [] + inputs == inputs;
      CollapseOntoKeepsDistinct([], inputs);
    }
  }
}

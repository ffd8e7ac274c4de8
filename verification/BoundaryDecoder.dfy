/** The cursor parser of crates/mustard-node/src/boundary_binary.rs; `None` stands for its errors. */
module BoundaryDecoder {
  import opened Wrappers
  import opened StructuredValues
  import opened Bytes
  import opened BoundaryFormat
  import opened BoundaryReader
  import opened LimitValues
  import opened BoundaryMessages
  import opened MessageMeaning

  class Decoder {
    const bytes: seq<byte>
    var cursor: nat

    ghost predicate Valid()
      reads this
    {
      cursor <= |bytes|
    }

    /** The bytes not read yet. */
    ghost function Rest(): seq<byte>
      reads this
      requires Valid()
    {
      bytes[cursor..]
    }

    /** The reader did what the grammar says: it failed where the grammar rejects, and otherwise
        returned what was read and moved past it. */
    ghost predicate Follows<T>(read: Option<T>, parsed: Parsed<T>)
      reads this
      requires Valid()
    {
      match parsed
      case Reject => read.None?
      case Read(value, rest) => read == Some(value) && Rest() == rest
    }

    constructor (bytes: seq<byte>)
      ensures Valid() && this.bytes == bytes && Rest() == bytes
    {
      this.bytes := bytes;
      cursor := 0;
    }

    method ExpectHeader(expectedKind: byte) returns (ok: bool)
      requires Valid()
      modifies this
      ensures Valid()
      ensures ok <==> Body(old(Rest()), expectedKind).Some?
      ensures ok ==> Rest() == Body(old(Rest()), expectedKind).value
    {
      ghost var start := Rest();
      var magic := ReadExact(|MAGIC|);
      if magic.None? {
        return false;
      }
      assert |start| >= 5 ==> start[..5] == start[..4] + [start[4]];
      if magic.value != MAGIC {
        return false;
      }
      var actualKind := ReadU8();
      return actualKind == Some(expectedKind);
    }

    method Finish() returns (ok: bool)
      requires Valid()
      ensures ok <==> Rest() == []
    {
      return cursor == |bytes|;
    }

    method ReadExact(len: nat) returns (slice: Option<seq<byte>>)
      requires Valid()
      modifies this
      ensures Valid() && Follows(slice, ParseBytes(old(Rest()), len))
    {
      var end := cursor + len;
      if end > |bytes| {
        return None;
      }
      slice := Some(bytes[cursor..end]);
      assert bytes[cursor..][..len] == bytes[cursor..end];
      assert bytes[cursor..][len..] == bytes[end..];
      cursor := end;
    }

    method ReadU8() returns (value: Option<byte>)
      requires Valid()
      modifies this
      ensures Valid() && Follows(value, ParseByte(old(Rest())))
    {
      var slice := ReadExact(1);
      if slice.None? {
        return None;
      }
      return Some(slice.value[0]);
    }

    method ReadU32() returns (value: Option<nat>)
      requires Valid()
      modifies this
      ensures Valid() && Follows(value, ParseU32(old(Rest())))
    {
      var slice := ReadExact(4);
      if slice.None? {
        return None;
      }
      return Some(FromLE(slice.value));
    }

    method ReadF64() returns (bits: Option<F64>)
      requires Valid()
      modifies this
      ensures Valid() && Follows(bits, ParseF64(old(Rest())))
    {
      var slice := ReadExact(8);
      if slice.None? {
        return None;
      }
      FixedWidthLE(0, slice.value);
      return Some(FromLE(slice.value));
    }

    method ReadString() returns (text: Option<string>)
      requires Valid()
      modifies this
      ensures Valid() && Follows(text, ParseString(old(Rest())))
    {
      var len := ReadU32();
      if len.None? {
        return None;
      }
      var slice := ReadExact(len.value);
      if slice.None? {
        return None;
      }
      return FromUtf8(slice.value);
    }

    /** The reader's view of a grammar result: objects are insertion-ordered maps. */
    method ReadStructuredValue(depth: nat) returns (value: Option<StructuredValue>)
      requires Valid()
      modifies this
      ensures Valid() && Follows(value, Collapsed(Parse(old(Rest()), depth)))
      decreases Levels(depth), 0
    {
      if depth > MAX_DEPTH {
        return None;
      }
      ghost var start := Rest();
      var tag := ReadU8();
      if tag.None? {
        return None;
      }
      match tag.value {
        case 0 => return Some(Undefined);
        case 1 => return Some(Null);
        case 2 => return Some(Hole);
        case 3 => return Some(Bool(false));
        case 4 => return Some(Bool(true));
        case 5 =>
          var text := ReadString();
          return if text.Some? then Some(String(text.value)) else None;
        case 6 =>
          var bits := ReadF64();
          return if bits.Some? then Some(Number(Finite(bits.value))) else None;
        case 7 => return Some(Number(NaN));
        case 8 => return Some(Number(Infinity));
        case 9 => return Some(Number(NegInfinity));
        case 10 => return Some(Number(NegZero));
        case 11 => value := ReadArray(depth + 1);
        case 12 =>
          var entries := ReadEntries(depth + 1);
          return if entries.Some? then Some(Object(entries.value)) else None;
        case _ => return None;
      }
    }

    method ReadArray(depth: nat) returns (value: Option<StructuredValue>)
      requires Valid()
      modifies this
      ensures Valid() && Follows(value, ArrayParsed(old(Rest()), depth))
      decreases Levels(depth), 2
    {
      hide ParseU32, ParseItems;
      var len := ReadU32();
      if len.None? || len.value > MAX_ARRAY_LENGTH {
        return None;
      }
      var values := [];
      ghost var whole := ParseItems(Rest(), len.value, depth);
      for i := 0 to len.value
        invariant Valid()
        invariant ItemsLeft(values, ParseItems(Rest(), len.value - i, depth), whole)
      {
        NextItem(values, Rest(), len.value - i, depth, whole);
        var item := ReadStructuredValue(depth);
        if item.None? {
          return None;
        }
        values := values + [item.value];
      }
      LastItem(values, Rest(), depth);
      return Some(Array(values));
    }

    /** The loop shared by objects and by message inputs: a count, then keys and values inserted in
        order. */
    method ReadEntries(depth: nat) returns (entries: Option<seq<Entry>>)
      requires Valid()
      modifies this
      ensures Valid() && Follows(entries, EntriesParsed(old(Rest()), depth))
      decreases Levels(depth), 2
    {
      hide ParseU32, ParseEntries, CollapseOnto, ParseString, Parse, Collapse, Insert;
      var len := ReadU32();
      if len.None? {
        return None;
      }
      var values: seq<Entry> := [];
      ghost var whole := ParseEntries(Rest(), len.value, depth);
      for i := 0 to len.value
        invariant Valid()
        invariant EntriesLeft(values, ParseEntries(Rest(), len.value - i, depth), whole)
      {
        NextEntry(values, Rest(), len.value - i, depth, whole);
        var key := ReadString();
        if key.None? {
          return None;
        }
        var value := ReadStructuredValue(depth);
        if value.None? {
          return None;
        }
        values := Insert(values, key.value, value.value);
      }
      LastEntry(values, Rest(), depth);
      return Some(values);
    }

    method ReadInputs() returns (inputs: Option<seq<Entry>>)
      requires Valid()
      modifies this
      ensures Valid() && Follows(inputs, EntriesParsed(old(Rest()), 1))
    {
      inputs := ReadEntries(1);
    }

    method ReadStringVec() returns (strings: Option<seq<string>>)
      requires Valid()
      modifies this
      ensures Valid() && Follows(strings, ParseStringVec(old(Rest())))
    {
      hide ParseU32, ParseString;
      var count := ReadU32();
      if count.None? {
        return None;
      }
      var values: seq<string> := [];
      ghost var whole := ParseStrings(Rest(), count.value);
      for i := 0 to count.value
        invariant Valid()
        invariant StringsLeft(values, ParseStrings(Rest(), count.value - i), whole)
      {
        ghost var tail := ParseStrings(Rest(), count.value - i);
        var text := ReadString();
        if text.None? {
          return None;
        }
        ghost var later := ParseStrings(Rest(), count.value - i - 1);
        if later.Read? {
          assert values + ([text.value] + later.value) == (values + [text.value]) + later.value;
        }
        values := values + [text.value];
      }
      assert values + [] == values;
      return Some(values);
    }

    method ReadLimitValue() returns (limit: Option<nat>)
      requires Valid()
      modifies this
      ensures Valid() && Follows(limit, LimitParsed(old(Rest())))
    {
      var value := ReadF64();
      if value.None? {
        return None;
      }
      return LimitValue(value.value);
    }

    /** One `if` of `read_runtime_limits`. */
    method ReadOptionalLimit(present: bool) returns (limit: Option<Option<nat>>)
      requires Valid()
      modifies this
      ensures Valid() && Follows(limit, OptionalLimitParsed(old(Rest()), present))
    {
      if !present {
        return Some(None);
      }
      var value := ReadLimitValue();
      if value.None? {
        return None;
      }
      return Some(value);
    }

    method ReadRuntimeLimits() returns (limits: Option<Limits<nat>>)
      requires Valid()
      modifies this
      ensures Valid() && Follows(limits, RuntimeLimitsParsed(old(Rest())))
    {
      hide OptionalLimitParsed, LimitsParsed, LimitsLeft, FromFields;
      var mask := ReadU8();
      if mask.None? {
        return None;
      }
      var bits := mask.value;
      ghost var whole := LimitsParsed(Rest(), bits, 5);
      ghost var done: seq<Option<nat>> := [];
      FirstLimit(whole);
      HalfBits(bits);
      NextLimit(done, Rest(), bits, 5, whole);
      var instructionBudget := ReadOptionalLimit(bits % 2 == 1);
      if instructionBudget.None? {
        return None;
      }
      done := done + [instructionBudget.value];
      NextLimit(done, Rest(), bits / 2, 4, whole);
      var heapLimitBytes := ReadOptionalLimit(bits / 2 % 2 == 1);
      if heapLimitBytes.None? {
        return None;
      }
      done := done + [heapLimitBytes.value];
      NextLimit(done, Rest(), bits / 4, 3, whole);
      var allocationBudget := ReadOptionalLimit(bits / 4 % 2 == 1);
      if allocationBudget.None? {
        return None;
      }
      done := done + [allocationBudget.value];
      NextLimit(done, Rest(), bits / 8, 2, whole);
      var callDepthLimit := ReadOptionalLimit(bits / 8 % 2 == 1);
      if callDepthLimit.None? {
        return None;
      }
      done := done + [callDepthLimit.value];
      NextLimit(done, Rest(), bits / 16, 1, whole);
      var maxOutstandingHostCalls := ReadOptionalLimit(bits / 16 % 2 == 1);
      if maxOutstandingHostCalls.None? {
        return None;
      }
      done := done + [maxOutstandingHostCalls.value];
      LastLimit(done, Rest(), bits / 32, whole);
      FiveFields(instructionBudget.value, heapLimitBytes.value, allocationBudget.value, callDepthLimit.value,
                 maxOutstandingHostCalls.value);
      return Some(Limits(instructionBudget.value, heapLimitBytes.value, allocationBudget.value,
                         callDepthLimit.value, maxOutstandingHostCalls.value));
    }

    method ReadResumePayload() returns (payload: Option<Resume>)
      requires Valid()
      modifies this
      ensures Valid() && Follows(payload, ResumeParsed(old(Rest())))
    {
      hide Parse, ParseError, Collapse;
      var tag := ReadU8();
      if tag.None? {
        return None;
      }
      match tag.value {
        case 0 =>
          var value := ReadStructuredValue(1);
          return if value.Some? then Some(ResumeValue(value.value)) else None;
        case 1 => payload := ReadHostError();
        case 2 => return Some(ResumeCancelled);
        case _ => return None;
      }
    }

    method ReadHostError() returns (error: Option<Resume>)
      requires Valid()
      modifies this
      ensures Valid() && Follows(error, ErrorParsed(old(Rest())))
    {
      hide ParseString, Parse, Collapse;
      var name := ReadString();
      if name.None? {
        return None;
      }
      var message := ReadString();
      if message.None? {
        return None;
      }
      var codeFlag := ReadU8();
      if codeFlag.None? {
        return None;
      }
      var code: Option<string> := None;
      if codeFlag.value != 0 {
        code := ReadString();
        if code.None? {
          return None;
        }
      }
      var detailsFlag := ReadU8();
      if detailsFlag.None? {
        return None;
      }
      var details: Option<StructuredValue> := None;
      if detailsFlag.value != 0 {
        details := ReadStructuredValue(1);
        if details.None? {
          return None;
        }
      }
      return Some(ResumeError(name.value, message.value, code, details));
    }
  }

  // ------------------------------------------------------------------ entry points

  method DecodeStartOptionsBytes(bytes: seq<byte>) returns (options: Option<StartOptions>)
    ensures options == DecodeStartOptions(bytes)
  {
    hide EntriesParsed, ParseStringVec, RuntimeLimitsParsed, DecodeStartOptions, ToMap;
    StartAsRead(bytes);
    var decoder := new Decoder(bytes);
    var ok := decoder.ExpectHeader(KIND_START_OPTIONS);
    if !ok {
      return None;
    }
    var inputs := decoder.ReadInputs();
    if inputs.None? {
      return None;
    }
    var capabilities := decoder.ReadStringVec();
    if capabilities.None? {
      return None;
    }
    var limits := decoder.ReadRuntimeLimits();
    if limits.None? {
      return None;
    }
    var finished := decoder.Finish();
    if !finished {
      return None;
    }
    return Some(StartOptions(ToMap(inputs.value), capabilities.value, limits.value));
  }

  method DecodeStructuredInputsBytes(bytes: seq<byte>) returns (inputs: Option<seq<Entry>>)
    ensures inputs == DecodeInputs(bytes)
  {
    hide ParseInputs, CollapseOnto;
    var decoder := new Decoder(bytes);
    var ok := decoder.ExpectHeader(KIND_STRUCTURED_INPUTS);
    if !ok {
      return None;
    }
    InputsAsRead(decoder.Rest());
    inputs := decoder.ReadInputs();
    var finished := decoder.Finish();
    if !finished {
      return None;
    }
  }

  method DecodeResumePayloadBytes(bytes: seq<byte>) returns (payload: Option<Resume>)
    ensures payload == DecodeResume(bytes)
  {
    hide ParseResume, ResumeMeaning;
    var decoder := new Decoder(bytes);
    var ok := decoder.ExpectHeader(KIND_RESUME_PAYLOAD);
    if !ok {
      return None;
    }
    payload := decoder.ReadResumePayload();
    var finished := decoder.Finish();
    if !finished {
      return None;
    }
  }

  // ------------------------------------------------------------------ what the grammar reads, as the reader keeps it

  function Collapsed(parsed: Parsed<StructuredValue>): Parsed<StructuredValue> {
    if parsed.Read? then Read(Collapse(parsed.value), parsed.rest) else Reject
  }

  function ArrayParsed(input: seq<byte>, depth: nat): Parsed<StructuredValue> {
    match ParseU32(input)
    case Reject => Reject
    case Read(n, after) =>
      if n > MAX_ARRAY_LENGTH then Reject
      else
        match ParseItems(after, n, depth)
        case Reject => Reject
        case Read(items, rest) => Read(Array(CollapseItems(items)), rest)
  }

  function EntriesParsed(input: seq<byte>, depth: nat): Parsed<seq<Entry>> {
    match ParseU32(input)
    case Reject => Reject
    case Read(n, after) =>
      match ParseEntries(after, n, depth)
      case Reject => Reject
      case Read(entries, rest) => Read(CollapseOnto([], entries), rest)
  }

  ghost predicate ItemsLeft(done: seq<StructuredValue>, left: Parsed<seq<StructuredValue>>, whole: Parsed<seq<StructuredValue>>) {
    match left
    case Reject => whole.Reject?
    case Read(items, rest) =>
      whole.Read? && whole.rest == rest && CollapseItems(whole.value) == done + CollapseItems(items)
  }

  lemma NextItem(done: seq<StructuredValue>, input: seq<byte>, n: nat, depth: nat, whole: Parsed<seq<StructuredValue>>)
    requires n > 0 && ItemsLeft(done, ParseItems(input, n, depth), whole)
    ensures match Parse(input, depth)
            case Reject => whole.Reject?
            case Read(item, after) => ItemsLeft(done + [Collapse(item)], ParseItems(after, n - 1, depth), whole)
  {
    hide Parse, Collapse;
    var item := Parse(input, depth);
    if item.Read? {
      var later := ParseItems(item.rest, n - 1, depth);
      if later.Read? {
        assert ([item.value] + later.value)[1..] == later.value;
        assert done + ([Collapse(item.value)] + CollapseItems(later.value)) == (done + [Collapse(item.value)]) + CollapseItems(later.value);
      }
    }
  }

  lemma LastItem(done: seq<StructuredValue>, input: seq<byte>, depth: nat)
    ensures ParseItems(input, 0, depth) == Read([], input) && done + CollapseItems([]) == done
  {
  }

  ghost predicate EntriesLeft(done: seq<Entry>, left: Parsed<seq<Entry>>, whole: Parsed<seq<Entry>>) {
    match left
    case Reject => whole.Reject?
    case Read(entries, rest) =>
      whole.Read? && whole.rest == rest && CollapseOnto([], whole.value) == CollapseOnto(done, entries)
  }

  lemma NextEntry(done: seq<Entry>, input: seq<byte>, n: nat, depth: nat, whole: Parsed<seq<Entry>>)
    requires n > 0 && EntriesLeft(done, ParseEntries(input, n, depth), whole)
    ensures match ParseString(input)
            case Reject => whole.Reject?
            case Read(key, afterKey) =>
              match Parse(afterKey, depth)
              case Reject => whole.Reject?
              case Read(value, after) =>
                EntriesLeft(Insert(done, key, Collapse(value)), ParseEntries(after, n - 1, depth), whole)
  {
    hide Parse, ParseString, Collapse, Insert;
    var key := ParseString(input);
    if key.Read? {
      var value := Parse(key.rest, depth);
      if value.Read? {
        var later := ParseEntries(value.rest, n - 1, depth);
        if later.Read? {
          var entry := Entry(key.value, value.value);
          assert ([entry] + later.value)[1..] == later.value;
        }
      }
    }
  }

  lemma LastEntry(done: seq<Entry>, input: seq<byte>, depth: nat)
    ensures ParseEntries(input, 0, depth) == Read([], input) && CollapseOnto(done, []) == done
  {
  }

  ghost predicate StringsLeft(done: seq<string>, left: Parsed<seq<string>>, whole: Parsed<seq<string>>) {
    match left
    case Reject => whole.Reject?
    case Read(strings, rest) => whole.Read? && whole.rest == rest && whole.value == done + strings
  }

  function LimitParsed(input: seq<byte>): Parsed<nat> {
    match ParseF64(input)
    case Reject => Reject
    case Read(bits, rest) => if LimitValue(bits).Some? then Read(LimitValue(bits).value, rest) else Reject
  }

  function OptionalLimitParsed(input: seq<byte>, present: bool): Parsed<Option<nat>> {
    if !present then Read(None, input)
    else
      match LimitParsed(input)
      case Reject => Reject
      case Read(limit, rest) => Read(Some(limit), rest)
  }

  /** The selected limits, each checked as soon as it is read. */
  function LimitsParsed(input: seq<byte>, mask: nat, n: nat): (parsed: Parsed<seq<Option<nat>>>)
    ensures parsed.Read? ==> |parsed.value| == n
  {
    if n == 0 then Read([], input)
    else
      match OptionalLimitParsed(input, mask % 2 == 1)
      case Reject => Reject
      case Read(limit, after) =>
        match LimitsParsed(after, mask / 2, n - 1)
        case Reject => Reject
        case Read(limits, rest) => Read([limit] + limits, rest)
  }

  ghost predicate LimitsLeft(done: seq<Option<nat>>, left: Parsed<seq<Option<nat>>>, whole: Parsed<seq<Option<nat>>>) {
    match left
    case Reject => whole.Reject?
    case Read(limits, rest) => whole.Read? && whole.rest == rest && whole.value == done + limits
  }

  lemma FiveFields<T>(a: Option<T>, b: Option<T>, c: Option<T>, d: Option<T>, e: Option<T>)
    ensures FromFields([] + [a] + [b] + [c] + [d] + [e]) == Limits(a, b, c, d, e)
  {
  }

  lemma HalfBits(bits: nat)
    ensures bits / 2 / 2 == bits / 4 && bits / 4 / 2 == bits / 8 && bits / 8 / 2 == bits / 16 && bits / 16 / 2 == bits / 32
  {
  }

  lemma FirstLimit(whole: Parsed<seq<Option<nat>>>)
    ensures LimitsLeft([], whole, whole)
  {
    assert whole.Read? ==> [] + whole.value == whole.value;
  }

  lemma NextLimit(done: seq<Option<nat>>, input: seq<byte>, mask: nat, n: nat, whole: Parsed<seq<Option<nat>>>)
    requires n > 0 && LimitsLeft(done, LimitsParsed(input, mask, n), whole)
    ensures match OptionalLimitParsed(input, mask % 2 == 1)
            case Reject => whole.Reject?
            case Read(limit, after) => LimitsLeft(done + [limit], LimitsParsed(after, mask / 2, n - 1), whole)
  {
    hide OptionalLimitParsed;
    var limit := OptionalLimitParsed(input, mask % 2 == 1);
    if limit.Read? {
      var later := LimitsParsed(limit.rest, mask / 2, n - 1);
      if later.Read? {
        assert done + ([limit.value] + later.value) == (done + [limit.value]) + later.value;
      }
    }
  }

  lemma LastLimit(done: seq<Option<nat>>, input: seq<byte>, mask: nat, whole: Parsed<seq<Option<nat>>>)
    requires LimitsLeft(done, LimitsParsed(input, mask, 0), whole)
    ensures whole == Read(done, input)
  {
    assert done + [] == done;
  }

  function RuntimeLimitsParsed(input: seq<byte>): Parsed<Limits<nat>> {
    match ParseByte(input)
    case Reject => Reject
    case Read(mask, after) =>
      match LimitsParsed(after, mask, 5)
      case Reject => Reject
      case Read(limits, rest) => Read(FromFields(limits), rest)
  }

  /** Checking each limit as it is read comes to the same as reading all and then checking. */
  lemma {:induction false} LimitsCheckedAsRead(input: seq<byte>, mask: nat, n: nat)
    ensures var fields := ParseLimitFields(input, mask, n);
      LimitsParsed(input, mask, n) ==
      if fields.Read? && AllLimits(fields.value).Some? then Read(AllLimits(fields.value).value, fields.rest) else Reject
    decreases n
  {
    hide ParseF64, LimitValue;
    if n > 0 {
      var field := ParseLimitField(input, mask % 2 == 1);
      if field.Read? {
        LimitsCheckedAsRead(field.rest, mask / 2, n - 1);
        var later := ParseLimitFields(field.rest, mask / 2, n - 1);
        if later.Read? {
          assert ([field.value] + later.value)[1..] == later.value;
        }
      }
    }
  }

  lemma LimitsAsRead(input: seq<byte>)
    ensures RuntimeLimitsParsed(input) ==
      match ParseByte(input)
      case Reject => Reject
      case Read(mask, after) =>
        match ParseLimitFields(after, mask, 5)
        case Reject => Reject
        case Read(fields, rest) =>
          if AllLimits(fields).Some? then Read(FromFields(AllLimits(fields).value), rest) else Reject
  {
    hide ParseLimitFields, LimitsParsed, AllLimits;
    if input != [] {
      LimitsCheckedAsRead(input[1..], input[0], 5);
    }
  }

  lemma InputsAsRead(input: seq<byte>)
    ensures EntriesParsed(input, 1) ==
      if ParseInputs(input).Read? then Read(CollapseOnto([], ParseInputs(input).value), ParseInputs(input).rest) else Reject
  {
  }

  /** The parts of a start message, each taken as it is read. */
  function StartParsed(input: seq<byte>): Parsed<StartOptions> {
    match EntriesParsed(input, 1)
    case Reject => Reject
    case Read(inputs, afterInputs) =>
      match ParseStringVec(afterInputs)
      case Reject => Reject
      case Read(capabilities, afterCapabilities) =>
        match RuntimeLimitsParsed(afterCapabilities)
        case Reject => Reject
        case Read(limits, rest) => Read(StartOptions(ToMap(inputs), capabilities, limits), rest)
  }

  lemma StartAsRead(bytes: seq<byte>)
    ensures DecodeStartOptions(bytes) ==
      match Body(bytes, KIND_START_OPTIONS)
      case None => None
      case Some(body) => Complete(StartParsed(body))
  {
    hide ParseInputs, EntriesParsed, ParseStringVec, ParseLimitFields, RuntimeLimitsParsed, CollapseOnto, AllLimits, ToMap, FromFields;
    if Body(bytes, KIND_START_OPTIONS).Some? {
      var body := Body(bytes, KIND_START_OPTIONS).value;
      InputsAsRead(body);
      if ParseInputs(body).Read? {
        var capabilities := ParseStringVec(ParseInputs(body).rest);
        if capabilities.Read? {
          LimitsAsRead(capabilities.rest);
        }
      }
    }
  }

  function ErrorParsed(input: seq<byte>): Parsed<Resume> {
    match ParseError(input)
    case Reject => Reject
    case Read(message, rest) => Read(ResumeMeaning(message), rest)
  }

  function ResumeParsed(input: seq<byte>): Parsed<Resume> {
    match ParseResume(input)
    case Reject => Reject
    case Read(message, rest) => Read(ResumeMeaning(message), rest)
  }
}

/** The message writers of lib/structured.ts:351-384 and 472-591; `None` stands for a thrown error. */
module MessageWriters {
  import opened Wrappers
  import opened StructuredValues
  import opened Bytes
  import opened BoundaryFormat
  import opened BoundaryReader
  import opened BinaryWriter
  import opened LimitValues
  import opened BoundaryMessages
  import opened MessageMeaning
  import opened HostGraph
  import opened HostBoundary
  import opened HostEncoders
  import opened TaggedTree
  import opened HostContent
  import opened HostArrival

  // ------------------------------------------------------------------ the parts

  /** The first loop of `writeEncodedLimits`. */
  method LimitMask(fields: seq<Option<F64>>) returns (mask: nat)
    ensures mask == Mask(fields)
  {
    hide Mask;
    var bit: nat := 1;
    mask := 0;
    assert fields[0..] == fields;
    for k := 0 to |fields|
      invariant mask + bit * Mask(fields[k..]) == Mask(fields)
    {
      MaskOfTail(fields, k, bit);
      if fields[k].Some? {
        mask := mask + bit;
      }
      bit := bit * 2;
    }
    NoFields(fields);
  }

  /** The second loop of `writeEncodedLimits`; `left` holds the mask bits not tested yet. */
  method WriteLimitFields(writer: Writer, mask: nat, fields: seq<Option<F64>>)
    requires writer.Valid() && Selects(mask, fields)
    modifies writer, writer.buffer
    ensures writer.Valid() && (writer.buffer == old(writer.buffer) || fresh(writer.buffer))
    ensures writer.Contents() == old(writer.Contents()) + EncodeLimitFields(fields)
  {
    hide EncodeLimitFields;
    ghost var start := writer.Contents();
    var left: nat := mask;
    assert fields[0..] == fields;
    for k := 0 to |fields|
      invariant writer.Valid() && (writer.buffer == old(writer.buffer) || fresh(writer.buffer))
      invariant Selects(left, fields[k..])
      invariant writer.Contents() + EncodeLimitFields(fields[k..]) == start + EncodeLimitFields(fields)
    {
      ghost var before := writer.Contents();
      NextLimitField(fields, k);
      assert fields[k..][1..] == fields[k + 1..];
      if left % 2 == 1 {
        writer.WriteF64(fields[k].value);
      } else {
        assert before + [] == before;
      }
      ghost var later := EncodeLimitFields(fields[k + 1..]);
      assert before + (EncodeLimitField(fields[k]) + later) == (before + EncodeLimitField(fields[k])) + later;
      left := left / 2;
    }
    NoFields(fields);
    assert writer.Contents() + [] == writer.Contents();
  }

  lemma NextLimitField(fields: seq<Option<F64>>, k: nat)
    requires k < |fields|
    ensures EncodeLimitFields(fields[k..]) == EncodeLimitField(fields[k]) + EncodeLimitFields(fields[k + 1..])
  {
    assert fields[k..][1..] == fields[k + 1..];
  }

  method WriteEncodedLimits(writer: Writer, limits: Limits<F64>)
    requires writer.Valid()
    modifies writer, writer.buffer
    ensures writer.Valid() && (writer.buffer == old(writer.buffer) || fresh(writer.buffer))
    ensures Mask(Fields(limits)) < 32
    ensures writer.Contents() == old(writer.Contents()) + ([Mask(Fields(limits))] + EncodeLimitFields(Fields(limits)))
  {
    hide Mask, Selects, EncodeLimitFields, Fields;
    var fields := Fields(limits);
    MaskIsFiveBits(fields);
    MaskSelects(Mask(fields), fields);
    var mask := LimitMask(fields);
    writer.WriteU8(mask);
    WriteLimitFields(writer, mask, fields);
  }

  lemma MaskOfTail(fields: seq<Option<F64>>, k: nat, bit: nat)
    requires k < |fields|
    ensures bit * Mask(fields[k..]) == (if fields[k].Some? then bit else 0) + bit * 2 * Mask(fields[k + 1..])
  {
    var tail := Mask(fields[k + 1..]);
    assert fields[k..][1..] == fields[k + 1..];
    assert bit * (2 * tail) == bit * 2 * tail;
    assert bit * (1 + 2 * tail) == bit + bit * (2 * tail);
  }

  lemma NoFields(fields: seq<Option<F64>>)
    ensures Mask(fields[|fields|..]) == 0 && EncodeLimitFields(fields[|fields|..]) == []
  {
  }

  method WriteEncodedCapabilities(writer: Writer, capabilities: seq<JsString>) returns (thrown: bool)
    requires writer.Valid()
    modifies writer, writer.buffer
    ensures writer.Valid() && (writer.buffer == old(writer.buffer) || fresh(writer.buffer))
    ensures thrown <==> Texts(capabilities).None?
    ensures !thrown ==> writer.Contents() == old(writer.Contents()) + EncodeStringVec(Texts(capabilities).value)
  {
    hide EncodeString, Texts, EncodeStrings;
    writer.WriteU32(|capabilities|);
    ghost var start := writer.Contents();
    ghost var whole := Texts(capabilities);
    assert capabilities[0..] == capabilities;
    for i := 0 to |capabilities|
      invariant writer.Valid() && (writer.buffer == old(writer.buffer) || fresh(writer.buffer))
      invariant whole.None? <==> Texts(capabilities[i..]).None?
      invariant whole.Some? ==>
        writer.Contents() + EncodeStrings(Texts(capabilities[i..]).value) == start + EncodeStrings(whole.value)
    {
      NextText(capabilities, i);
      if capabilities[i].LoneSurrogate? {
        return true;
      }
      ghost var before := writer.Contents();
      writer.WriteString(capabilities[i].text);
      ghost var later := Texts(capabilities[i + 1..]);
      if later.Some? {
        ghost var item := EncodeString(capabilities[i].text);
        assert before + (item + EncodeStrings(later.value)) == (before + item) + EncodeStrings(later.value);
      }
    }
    NoTexts();
    assert capabilities[|capabilities|..] == [] && writer.Contents() + [] == writer.Contents();
    return false;
  }

  lemma NextText(strings: seq<JsString>, i: nat)
    requires i < |strings|
    ensures var now, later := Texts(strings[i..]), Texts(strings[i + 1..]);
      && (now.Some? <==> strings[i].WellFormed? && later.Some?)
      && (now.Some? ==> EncodeStrings(now.value) == EncodeString(strings[i].text) + EncodeStrings(later.value))
  {
    assert strings[i..][1..] == strings[i + 1..];
    var now, later := Texts(strings[i..]), Texts(strings[i + 1..]);
    if now.Some? {
      assert now.value[1..] == later.value;
    }
  }

  lemma NoTexts()
    ensures Texts([]) == Some([]) && EncodeStrings([]) == []
  {
  }

  /** A graph value as `writeStructured` writes it with a traversal of its own. */
  method WriteInputs(heap: Heap, properties: seq<Property>, writer: Writer) returns (thrown: bool)
    requires writer.Valid()
    modifies writer, writer.buffer
    ensures writer.Valid() && (writer.buffer == old(writer.buffer) || fresh(writer.buffer))
    ensures thrown <==> InputEntries(heap, properties).None?
    ensures !thrown ==> writer.Contents() == old(writer.Contents()) + EncodeInputs(InputEntries(heap, properties).value)
  {
    hide UnfoldFields, EncodeEntries;
    var entries := EnumerateDataProperties(properties);
    if entries.None? {
      return true;
    }
    writer.WriteU32(|entries.value|);
    var traversal := new Traversal();
    thrown := WriteFields(heap, entries.value, writer, traversal, 1);
  }

  // ------------------------------------------------------------------ whole messages

  method EncodeStructuredInputsBuffer(heap: Heap, properties: seq<Property>) returns (bytes: Option<seq<byte>>)
    ensures match InputEntries(heap, properties)
            case None => bytes.None?
            case Some(inputs) => bytes == Some(InputsBytes(inputs))
    ensures bytes.Some? <==> InputsMayCross(heap, properties)
    ensures bytes.Some? && SmallStart(heap, properties, []) ==> InputsArrive(heap, properties, DecodeInputs(bytes.value))
  {
    InputsAreSentExactly(heap, properties);
    InputsShowIfSent(heap, properties);
    hide InputsMayCross, InputsArrive, SmallStart, DecodeInputs;
    hide InputEntries, EncodeInputs;
    var writer := new Writer();
    writer.WriteHeader(KIND_STRUCTURED_INPUTS);
    assert writer.Contents() == Header(KIND_STRUCTURED_INPUTS);
    var thrown := WriteInputs(heap, properties, writer);
    if thrown {
      return None;
    }
    return Some(writer.buffer[..writer.offset]);
  }

  method EncodeStartOptionsBuffer(heap: Heap, properties: seq<Property>, capabilities: seq<JsString>, limits: Limits<F64>)
    returns (bytes: Option<seq<byte>>)
    ensures if InputEntries(heap, properties).None? || Texts(capabilities).None? then bytes.None?
            else bytes == Some(StartBytes(InputEntries(heap, properties).value, Texts(capabilities).value, limits))
    ensures bytes.Some? <==>
      InputsMayCross(heap, properties) && forall i :: 0 <= i < |capabilities| ==> capabilities[i].WellFormed?
    ensures bytes.Some? && SmallStart(heap, properties, capabilities) ==>
      StartArrives(heap, properties, capabilities, limits, DecodeStartOptions(bytes.value))
  {
    StartShowsIfSent(heap, properties, capabilities, limits);
    InputsAreSentExactly(heap, properties);
    TextsAreInOrder(capabilities);
    hide InputsMayCross, StartArrives, SmallStart, DecodeStartOptions, InputEntries, EncodeInputs, Texts, EncodeStringVec, Mask, EncodeLimitFields, Fields;
    var writer := new Writer();
    writer.WriteHeader(KIND_START_OPTIONS);
    assert writer.Contents() == Header(KIND_START_OPTIONS);
    var thrown := WriteInputs(heap, properties, writer);
    if thrown {
      return None;
    }
    var suffix := StartOptionsSuffix(capabilities, limits);
    if suffix.None? {
      return None;
    }
    writer.WriteBuffer(suffix.value);
    ghost var inputs := EncodeInputs(InputEntries(heap, properties).value);
    assert (Header(KIND_START_OPTIONS) + inputs) + suffix.value == Header(KIND_START_OPTIONS) + (inputs + suffix.value);
    return Some(writer.buffer[..writer.offset]);
  }

  /** The part of a start message that depends only on the policy. */
  method StartOptionsSuffix(capabilities: seq<JsString>, limits: Limits<F64>) returns (bytes: Option<seq<byte>>)
    ensures Mask(Fields(limits)) < 32
    ensures match Texts(capabilities)
            case None => bytes.None?
            case Some(texts) =>
              bytes == Some(EncodeStringVec(texts) + ([Mask(Fields(limits))] + EncodeLimitFields(Fields(limits))))
  {
    hide Texts, EncodeStringVec, Mask, EncodeLimitFields, Fields;
    var writer := new Writer();
    MaskIsFiveBits(Fields(limits));
    var thrown := WriteEncodedCapabilities(writer, capabilities);
    if thrown {
      return None;
    }
    assert [] + EncodeStringVec(Texts(capabilities).value) == EncodeStringVec(Texts(capabilities).value);
    WriteEncodedLimits(writer, limits);
    return Some(writer.buffer[..writer.offset]);
  }

  method EncodeResumePayloadValueBuffer(heap: Heap, value: HostValue) returns (bytes: Option<seq<byte>>)
    ensures match Unfold(heap, value, {}, 1)
            case None => bytes.None?
            case Some(denoted) => bytes == Some(ResumeBytes(ResumeValue(denoted)))
    ensures bytes.Some? <==> Admissible(heap, value, {}, 1)
    ensures bytes.Some? && UniqueKeys(heap) && SmallGraph(heap, value) ==> ValueArrives(heap, value, DecodeResume(bytes.value))
  {
    hide Unfold, Encode, Admissible, ValueArrives, SmallGraph, UniqueKeys, DecodeResume;
    UnfoldsExactlyAdmissible(heap, value, {}, 1);
    if Unfold(heap, value, {}, 1).Some? && UniqueKeys(heap) && SmallGraph(heap, value) {
      ResumeValueShows(heap, value);
    }
    var writer := new Writer();
    writer.WriteHeader(KIND_RESUME_PAYLOAD);
    writer.WriteU8(RESUME_VALUE);
    ghost var sofar := writer.Contents();
    var traversal := new Traversal();
    var thrown := WriteStructured(heap, value, writer, traversal, 1);
    if thrown {
      return None;
    }
    ghost var item := Encode(Unfold(heap, value, {}, 1).value);
    assert sofar + item == Header(KIND_RESUME_PAYLOAD) + ([RESUME_VALUE] + item);
    return Some(writer.buffer[..writer.offset]);
  }

  method EncodeResumePayloadCancelBuffer() returns (bytes: seq<byte>)
    ensures bytes == ResumeBytes(ResumeCancelled)
  {
    var writer := new Writer();
    writer.WriteHeader(KIND_RESUME_PAYLOAD);
    writer.WriteU8(RESUME_CANCELLED);
    return writer.buffer[..writer.offset];
  }

  // ------------------------------------------------------------------ host errors

  method EncodeResumePayloadErrorBuffer(heap: Heap, properties: seq<Property>) returns (bytes: Option<seq<byte>>)
    ensures match ErrorOf(heap, properties)
            case None => bytes.None?
            case Some(error) => bytes == Some(ResumeBytes(error))
    ensures PropertyKeysDiffer(properties) ==> (bytes.Some? <==> ErrorMayCross(heap, properties))
    ensures bytes.Some? && UniqueKeys(heap) && PropertyKeysDiffer(properties) && SmallError(heap, properties) ==>
      ErrorArrives(heap, properties, DecodeResume(bytes.value))
  {
    ErrorShowsIfSent(heap, properties);
    hide ErrorMayCross, ErrorArrives, SmallError, UniqueKeys, PropertyKeysDiffer, DecodeResume, ReadOwn, Unfold, EncodeString, EncodeFlaggedString, EncodeFlaggedValue, ResumeBytes;
    var name := ReadOwn(properties, "name");
    var message := ReadOwn(properties, "message");
    var code := ReadOwn(properties, "code");
    var details := ReadOwn(properties, "details");
    if name.None? || message.None? || code.None? || details.None? {
      return None;
    }
    var writer := new Writer();
    writer.WriteHeader(KIND_RESUME_PAYLOAD);
    writer.WriteU8(RESUME_ERROR);
    assert writer.Contents() == Header(KIND_RESUME_PAYLOAD) + [RESUME_ERROR];
    var thrown := WriteText(writer, TextOr(name.value, "Error"));
    if thrown {
      return None;
    }
    thrown := WriteText(writer, TextOr(message.value, ""));
    if thrown {
      return None;
    }
    thrown := WriteCode(writer, code.value);
    if thrown {
      return None;
    }
    thrown := WriteDetails(writer, heap, details.value);
    if thrown {
      return None;
    }
    bytes := Some(writer.buffer[..writer.offset]);
    ErrorBytesAssoc(ErrorOf(heap, properties).value);
  }

  method WriteCode(writer: Writer, code: HostValue) returns (thrown: bool)
    requires writer.Valid()
    modifies writer, writer.buffer
    ensures writer.Valid() && (writer.buffer == old(writer.buffer) || fresh(writer.buffer))
    ensures thrown <==> code == StringValue(LoneSurrogate)
    ensures !thrown ==>
      writer.Contents() == old(writer.Contents()) + EncodeFlaggedString(FlagOf(if code.StringValue? then Some(code.text.text) else None))
  {
    hide EncodeString;
    if code.StringValue? {
      writer.WriteU8(1);
      thrown := WriteText(writer, code.text);
    } else {
      writer.WriteU8(0);
      thrown := false;
    }
  }

  method WriteDetails(writer: Writer, heap: Heap, details: HostValue) returns (thrown: bool)
    requires writer.Valid()
    modifies writer, writer.buffer
    ensures writer.Valid() && (writer.buffer == old(writer.buffer) || fresh(writer.buffer))
    ensures thrown <==> details != UndefinedValue && Unfold(heap, details, {}, 1).None?
    ensures !thrown ==>
      writer.Contents() == old(writer.Contents()) + EncodeFlaggedValue(FlagOf(
                             if details == UndefinedValue then None else Unfold(heap, details, {}, 1)))
  {
    hide Unfold, Encode;
    if details == UndefinedValue {
      writer.WriteU8(0);
      thrown := false;
    } else {
      writer.WriteU8(1);
      var traversal := new Traversal();
      thrown := WriteStructured(heap, details, writer, traversal, 1);
    }
  }

  method WriteText(writer: Writer, text: JsString) returns (thrown: bool)
    requires writer.Valid()
    modifies writer, writer.buffer
    ensures writer.Valid() && (writer.buffer == old(writer.buffer) || fresh(writer.buffer))
    ensures thrown <==> text.LoneSurrogate?
    ensures !thrown ==> writer.Contents() == old(writer.Contents()) + EncodeString(text.text)
  {
    if text.LoneSurrogate? {
      return true;
    }
    writer.WriteString(text.text);
    return false;
  }

  /** The bytes of an error payload in the order they are written. */
  lemma ErrorBytesAssoc(error: Resume)
    requires error.ResumeError?
    ensures ResumeBytes(error) ==
      (((Header(KIND_RESUME_PAYLOAD) + [RESUME_ERROR]) + EncodeString(error.name)) + EncodeString(error.message))
      + EncodeFlaggedString(FlagOf(error.code)) + EncodeFlaggedValue(FlagOf(error.details))
  {
    hide EncodeString, EncodeFlaggedString, EncodeFlaggedValue;
  }
}

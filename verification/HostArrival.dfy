/** From the objects of the host to what the reader is given (lib/structured.ts:472-591). */
module HostArrival {
  import opened Wrappers
  import opened StructuredValues
  import opened Bytes
  import opened BoundaryFormat
  import opened BoundaryReader
  import opened LimitValues
  import opened TaggedTree
  import opened BoundaryMessages
  import opened MessageMeaning
  import opened HostGraph
  import opened HostBoundary
  import opened HostContent

  /** `None` when some string has a lone surrogate. */
  function Texts(strings: seq<JsString>): (texts: Option<seq<string>>)
    ensures texts.Some? ==> |texts.value| == |strings|
  {
    if strings == [] then Some([])
    else if strings[0].LoneSurrogate? then None
    else
      match Texts(strings[1..])
      case None => None
      case Some(texts) => Some([strings[0].text] + texts)
  }

  /** The entries a start message carries for its inputs object. */
  function InputEntries(heap: Heap, properties: seq<Property>): Option<seq<Entry>> {
    if Enumerable(properties) then UnfoldFields(heap, DataFields(properties), {}, 1) else None
  }

  // ------------------------------------------------------------------ host errors

  /** `readOwnDataProperty`; `None` when the property is an accessor. */
  function ReadOwn(properties: seq<Property>, key: string): Option<HostValue> {
    if properties == [] then Some(UndefinedValue)
    else if properties[0].key == WellFormed(key) && !properties[0].slot.Absent? then
      if properties[0].slot.Accessor? then None else Some(properties[0].slot.value)
    else ReadOwn(properties[1..], key)
  }

  /** A string property as it is sent: anything that is not a string becomes the default. */
  function TextOr(value: HostValue, default: string): JsString {
    if value.StringValue? then value.text else WellFormed(default)
  }

  /** The error payload for an error object with these own properties; `None` when one of the four
      is an accessor, a sent string has a lone surrogate, or the details may not cross. */
  function ErrorOf(heap: Heap, properties: seq<Property>): Option<Resume> {
    var name, message, code, details :=
      ReadOwn(properties, "name"), ReadOwn(properties, "message"), ReadOwn(properties, "code"), ReadOwn(properties, "details");
    if name.None? || message.None? || code.None? || details.None? then None
    else
      var nameText, messageText := TextOr(name.value, "Error"), TextOr(message.value, "");
      if nameText.LoneSurrogate? || messageText.LoneSurrogate? || code.value == StringValue(LoneSurrogate) then None
      else
        var codeText := if code.value.StringValue? then Some(code.value.text.text) else None;
        if details.value == UndefinedValue then Some(ResumeError(nameText.text, messageText.text, codeText, None))
        else
          match Unfold(heap, details.value, {}, 1)
          case None => None
          case Some(denoted) => Some(ResumeError(nameText.text, messageText.text, codeText, Some(denoted)))
  }

  // ------------------------------------------------------------------ from the host's graph to the reader

  /** What a graph's fields denote has distinct keys and arrays within bounds. */
  lemma InputsAreDistinct(heap: Heap, properties: seq<Property>)
    requires UniqueKeys(heap) && PropertyKeysDiffer(properties) && InputEntries(heap, properties).Some?
    ensures var inputs := InputEntries(heap, properties).value;
      DistinctKeys(Object(inputs)) && forall i :: 0 <= i < |inputs| ==> ArraysFit(inputs[i].value)
  {
    hide UnfoldFields, DistinctKeys, ArraysFit, HostShaped;
    var fields := DataFields(properties);
    FieldKeysDiffer(properties);
    DenotedFieldsHaveDistinctKeys(heap, fields, {}, 1);
    DenotedFieldsAreHostShaped(heap, fields, {}, 1);
    var inputs := InputEntries(heap, properties).value;
    forall i | 0 <= i < |inputs| ensures ArraysFit(inputs[i].value) {
      HostShapedArraysFit(inputs[i].value, 1);
    }
    KeysOfFields(fields, inputs);
  }

  lemma KeysOfFields(fields: seq<HostGraph.Field>, inputs: seq<Entry>)
    requires |fields| == |inputs| && DistinctFields(fields)
    requires forall i :: 0 <= i < |inputs| ==> inputs[i].key == fields[i].key && DistinctKeys(inputs[i].value)
    ensures DistinctKeys(Object(inputs))
  {
    assert KeysDiffer(inputs);
  }

  /** A start request built from host objects arrives as those objects denote it: its inputs as a
      map, its capabilities in order, each limit in its place. */
  lemma StartRequestArrives(heap: Heap, properties: seq<Property>, capabilities: seq<string>, limits: Limits<F64>)
    requires UniqueKeys(heap) && PropertyKeysDiffer(properties) && InputEntries(heap, properties).Some?
    requires |InputEntries(heap, properties).value| < U32_LIMIT && StringsFit(capabilities)
    requires forall i :: 0 <= i < |InputEntries(heap, properties).value| ==>
      FitsString(InputEntries(heap, properties).value[i].key) && Sized(InputEntries(heap, properties).value[i].value)
    ensures var inputs := InputEntries(heap, properties).value;
      DecodeStartOptions(StartBytes(inputs, capabilities, limits)) ==
      if InputsFit(inputs) && AllLimits(Fields(limits)).Some?
      then Some(StartOptions(ToMap(inputs), capabilities, FromFields(AllLimits(Fields(limits)).value)))
      else None
  {
    hide InputEntries, DistinctKeys, ArraysFit, Sized, StringsFit, InputsFit, AllLimits, ToMap, DecodeStartOptions, StartBytes,
      FitsString, Fields, FromFields;
    InputsAreDistinct(heap, properties);
    StartOptionsRoundTrip(InputEntries(heap, properties).value, capabilities, limits);
  }

  /** What one graph value denotes, sent alone: distinct keys, arrays within bounds, and within the
      reader's depth exactly without holes at the deepest level. */
  lemma DenotedFits(heap: Heap, value: HostValue)
    requires UniqueKeys(heap) && Unfold(heap, value, {}, 1).Some? && Sized(Unfold(heap, value, {}, 1).value)
    ensures var denoted := Unfold(heap, value, {}, 1).value;
      DistinctKeys(denoted) && ArraysFit(denoted) && (Fits(denoted, 1) <==> NoDeepHole(denoted, 1))
  {
    hide Unfold, DistinctKeys, ArraysFit, Sized, Fits, NoDeepHole, HostShaped;
    var denoted := Unfold(heap, value, {}, 1).value;
    DenotedIsHostShaped(heap, value, {}, 1);
    DenotedHasDistinctKeys(heap, value, {}, 1);
    HostShapedIsNoHole(denoted, 1);
    HostShapedArraysFit(denoted, 1);
    FitsWithoutDeepHoles(denoted, 1);
  }

  /** A value to resume with arrives as its graph denotes it, unless an array at the deepest level has
      a hole. */
  lemma ResumeValueArrives(heap: Heap, value: HostValue)
    requires UniqueKeys(heap) && Unfold(heap, value, {}, 1).Some? && Sized(Unfold(heap, value, {}, 1).value)
    ensures var denoted := Unfold(heap, value, {}, 1).value;
      DecodeResume(ResumeBytes(ResumeValue(denoted))) ==
      if NoDeepHole(denoted, 1) then Some(ResumeValue(denoted)) else None
  {
    hide Unfold, DistinctKeys, ArraysFit, Sized, Fits, NoDeepHole, DecodeResume, ResumeBytes;
    DenotedFits(heap, value);
    ResumeRoundTrip(ResumeValue(Unfold(heap, value, {}, 1).value));
  }

  /** A host error arrives with its four parts as they were read off the error object. */
  lemma HostErrorArrives(heap: Heap, properties: seq<Property>)
    requires UniqueKeys(heap) && ErrorOf(heap, properties).Some? && ResumeSized(ErrorOf(heap, properties).value)
    ensures var error := ErrorOf(heap, properties).value;
      DecodeResume(ResumeBytes(error)) ==
      if error.details.Some? ==> NoDeepHole(error.details.value, 1) then Some(error) else None
  {
    hide Unfold, DistinctKeys, ArraysFit, Sized, Fits, NoDeepHole, DecodeResume, ResumeBytes, ReadOwn;
    var error := ErrorOf(heap, properties).value;
    if error.details.Some? {
      DenotedFits(heap, ReadOwn(properties, "details").value);
    }
    ResumeRoundTrip(error);
  }

  // ------------------------------------------------------------------ what arrives, said of the host's objects

  /** A resume value arrives with the content of its graph, and is refused exactly for a hole at the deepest
      level. */
  ghost predicate ValueArrives(heap: Heap, value: HostValue, arrived: Option<Resume>) {
    && (arrived.Some? <==> NoDeepHoleIn(heap, value))
    && (arrived.Some? ==> arrived.value.ResumeValue? && Shows(heap, value, arrived.value.value))
  }

  lemma ResumeValueShows(heap: Heap, value: HostValue)
    requires UniqueKeys(heap) && Unfold(heap, value, {}, 1).Some? && SmallGraph(heap, value)
    ensures ValueArrives(heap, value, DecodeResume(ResumeBytes(ResumeValue(Unfold(heap, value, {}, 1).value))))
  {
    hide Unfold, Shows, DecodeResume, ResumeBytes, Sized, NoDeepHole, UniqueKeys;
    UnfoldShows(heap, value, {}, 1);
    OnlyWhatIsShown(heap, value, Unfold(heap, value, {}, 1).value);
    ResumeValueArrives(heap, value);
  }

  /** The inputs of a start request arrive as a map that has, under the key of each data property, what the
      property shows, and nothing else. */
  ghost predicate InputsShow(heap: Heap, properties: seq<Property>, inputs: map<string, StructuredValue>) {
    && (forall i :: 0 <= i < |properties| && properties[i].slot.Data? ==>
          && properties[i].key.WellFormed? && properties[i].key.text in inputs
          && Shows(heap, properties[i].slot.value, inputs[properties[i].key.text]))
    && (forall key :: key in inputs ==> OwnsData(properties, key))
  }

  ghost predicate OwnsData(properties: seq<Property>, key: string) {
    exists i :: 0 <= i < |properties| && properties[i].slot.Data? && properties[i].key == WellFormed(key)
  }

  /** A limit arrives as the whole number its float is. */
  predicate LimitArrives(sent: Option<F64>, arrived: Option<nat>) {
    sent.Some? == arrived.Some? && (sent.Some? ==> LimitValue(sent.value) == arrived)
  }

  predicate LimitsArrive(sent: Limits<F64>, arrived: Limits<nat>) {
    && LimitArrives(sent.instructionBudget, arrived.instructionBudget)
    && LimitArrives(sent.heapLimitBytes, arrived.heapLimitBytes)
    && LimitArrives(sent.allocationBudget, arrived.allocationBudget)
    && LimitArrives(sent.callDepthLimit, arrived.callDepthLimit)
    && LimitArrives(sent.maxOutstandingHostCalls, arrived.maxOutstandingHostCalls)
  }

  predicate CapabilitiesArrive(sent: seq<JsString>, arrived: seq<string>) {
    |arrived| == |sent| && forall i :: 0 <= i < |sent| ==> sent[i] == WellFormed(arrived[i])
  }

  /** Everything but the depth of inputs and the range of limits is within the bounds of the format. */
  ghost predicate SmallStart(heap: Heap, properties: seq<Property>, capabilities: seq<JsString>) {
    && UniqueKeys(heap) && PropertyKeysDiffer(properties) && |properties| < U32_LIMIT && |capabilities| < U32_LIMIT
    && (forall i :: 0 <= i < |properties| && properties[i].key.WellFormed? ==> FitsString(properties[i].key.text))
    && (forall i :: 0 <= i < |properties| && properties[i].slot.Data? ==> SmallGraph(heap, properties[i].slot.value))
    && (forall i :: 0 <= i < |capabilities| && capabilities[i].WellFormed? ==> FitsString(capabilities[i].text))
  }

  /** A start request arrives with the content of the host's objects; it is refused exactly for a hole at the
      deepest level of an input or a limit that is no whole number in range. */
  ghost predicate StartArrives(heap: Heap, properties: seq<Property>, capabilities: seq<JsString>, limits: Limits<F64>,
                               arrived: Option<StartOptions>)
  {
    && (arrived.Some? ==>
          && InputsShow(heap, properties, arrived.value.inputs)
          && CapabilitiesArrive(capabilities, arrived.value.capabilities)
          && LimitsArrive(limits, arrived.value.limits))
    && (arrived.Some? <==>
          && (forall i :: 0 <= i < |properties| && properties[i].slot.Data? ==> NoDeepHoleIn(heap, properties[i].slot.value))
          && forall k :: 0 <= k < 5 && Fields(limits)[k].Some? ==> LimitValue(Fields(limits)[k].value).Some?)
  }

  lemma {:induction false} TextsAreInOrder(strings: seq<JsString>)
    ensures Texts(strings).Some? <==> forall i :: 0 <= i < |strings| ==> strings[i].WellFormed?
    ensures Texts(strings).Some? ==> CapabilitiesArrive(strings, Texts(strings).value)
  {
    if strings != [] {
      TextsAreInOrder(strings[1..]);
      assert strings == [strings[0]] + strings[1..];
    }
  }

  lemma {:induction false} LimitsAreRead(fields: seq<Option<F64>>)
    ensures AllLimits(fields).Some? <==> forall k :: 0 <= k < |fields| && fields[k].Some? ==> LimitValue(fields[k].value).Some?
    ensures AllLimits(fields).Some? ==> forall k :: 0 <= k < |fields| ==> LimitArrives(fields[k], AllLimits(fields).value[k])
  {
    hide LimitValue;
    if fields != [] {
      LimitsAreRead(fields[1..]);
      assert fields == [fields[0]] + fields[1..];
    }
  }

  /** The entries of a start message are the data properties, each with what it shows. */
  lemma InputsAreShown(heap: Heap, properties: seq<Property>)
    requires InputEntries(heap, properties).Some?
    ensures ShowsProperties(heap, properties, InputEntries(heap, properties).value)
  {
    UnfoldShowsProperties(heap, properties, {}, 1);
  }

  lemma InputsAreSized(heap: Heap, properties: seq<Property>, capabilities: seq<JsString>, inputs: seq<Entry>)
    requires SmallStart(heap, properties, capabilities) && ShowsProperties(heap, properties, inputs)
    ensures |inputs| < U32_LIMIT
    ensures forall j :: 0 <= j < |inputs| ==> FitsString(inputs[j].key) && Sized(inputs[j].value)
  {
    hide Shows, FitsString, Sized;
    DataBeforeIsBounded(properties, |properties|);
    forall j | 0 <= j < |inputs| ensures FitsString(inputs[j].key) && Sized(inputs[j].value) {
      var i := DataPropertyOf(properties, |properties|, j);
      assert ShowsProperty(heap, properties, inputs, i) && SmallGraph(heap, properties[i].slot.value);
    }
  }

  lemma {:induction false} DataBeforeIsBounded(properties: seq<Property>, n: nat)
    requires n <= |properties|
    ensures DataBefore(properties, n) <= n
    decreases n
  {
    if n > 0 {
      DataBeforeIsBounded(properties, n - 1);
    }
  }

  lemma InputsHaveNoDeepHole(heap: Heap, properties: seq<Property>, inputs: seq<Entry>)
    requires ShowsProperties(heap, properties, inputs)
    ensures (forall j :: 0 <= j < |inputs| ==> NoDeepHole(inputs[j].value, 1)) <==>
      forall i :: 0 <= i < |properties| && properties[i].slot.Data? ==> NoDeepHoleIn(heap, properties[i].slot.value)
  {
    hide Shows, NoDeepHole;
    forall i | 0 <= i < |properties| && properties[i].slot.Data?
      ensures var j := DataBefore(properties, i);
        j < |inputs| && (NoDeepHoleIn(heap, properties[i].slot.value) <==> NoDeepHole(inputs[j].value, 1))
    {
      assert ShowsProperty(heap, properties, inputs, i);
      OnlyWhatIsShown(heap, properties[i].slot.value, inputs[DataBefore(properties, i)].value);
    }
    if forall i :: 0 <= i < |properties| && properties[i].slot.Data? ==> NoDeepHoleIn(heap, properties[i].slot.value) {
      forall j | 0 <= j < |inputs| ensures NoDeepHole(inputs[j].value, 1) {
        var i := DataPropertyOf(properties, |properties|, j);
      }
    }
  }

  lemma MapShows(heap: Heap, properties: seq<Property>, inputs: seq<Entry>)
    requires ShowsProperties(heap, properties, inputs) && KeysDiffer(inputs)
    ensures InputsShow(heap, properties, ToMap(inputs))
  {
    hide Shows, ToMap;
    MapHoldsEntries(inputs);
    var held := ToMap(inputs);
    forall i | 0 <= i < |properties| && properties[i].slot.Data?
      ensures && properties[i].key.WellFormed? && properties[i].key.text in held
              && Shows(heap, properties[i].slot.value, held[properties[i].key.text])
    {
      assert ShowsProperty(heap, properties, inputs, i);
      var entry := inputs[DataBefore(properties, i)];
      assert entry == Entry(entry.key, entry.value) && entry in inputs;
    }
    forall key | key in held ensures OwnsData(properties, key) {
      assert Entry(key, held[key]) in inputs;
      var j :| 0 <= j < |inputs| && inputs[j] == Entry(key, held[key]);
      var i := DataPropertyOf(properties, |properties|, j);
      assert ShowsProperty(heap, properties, inputs, i);
    }
  }

  lemma StartShows(heap: Heap, properties: seq<Property>, capabilities: seq<JsString>, limits: Limits<F64>)
    requires SmallStart(heap, properties, capabilities)
    requires InputEntries(heap, properties).Some? && Texts(capabilities).Some?
    ensures StartArrives(heap, properties, capabilities, limits,
                         DecodeStartOptions(StartBytes(InputEntries(heap, properties).value, Texts(capabilities).value, limits)))
  {
    hide InputEntries, ShowsProperties, Texts, DistinctKeys, ArraysFit, Sized, Fits, DecodeStartOptions, StartBytes, FitsString, LimitValue,
      AllLimits, ToMap, InputsShow, NoDeepHole;
    var inputs, texts := InputEntries(heap, properties).value, Texts(capabilities).value;
    InputsAreShown(heap, properties);
    InputsAreSized(heap, properties, capabilities, inputs);
    TextsAreInOrder(capabilities);
    LimitsAreRead(Fields(limits));
    InputsAreDistinct(heap, properties);
    StartRequestArrives(heap, properties, texts, limits);
    InputsHaveNoDeepHole(heap, properties, inputs);
    InputsFitWithoutDeepHoles(heap, properties);
    assert KeysDiffer(inputs) by { DistinctKeysDiffer(inputs); }
    MapShows(heap, properties, inputs);
  }

  lemma DistinctKeysDiffer(inputs: seq<Entry>)
    requires DistinctKeys(Object(inputs))
    ensures KeysDiffer(inputs)
  {
  }

  lemma InputsFitWithoutDeepHoles(heap: Heap, properties: seq<Property>)
    requires InputEntries(heap, properties).Some?
    requires var inputs := InputEntries(heap, properties).value;
      |inputs| < U32_LIMIT && forall j :: 0 <= j < |inputs| ==> FitsString(inputs[j].key) && Sized(inputs[j].value)
    ensures var inputs := InputEntries(heap, properties).value;
      InputsFit(inputs) <==> forall j :: 0 <= j < |inputs| ==> NoDeepHole(inputs[j].value, 1)
  {
    hide UnfoldFields, Fits, NoDeepHole, Sized, FitsString, HostShaped;
    DenotedFieldsAreHostShaped(heap, DataFields(properties), {}, 1);
    var inputs := InputEntries(heap, properties).value;
    forall j | 0 <= j < |inputs| ensures Fits(inputs[j].value, 1) <==> NoDeepHole(inputs[j].value, 1) {
      HostShapedIsNoHole(inputs[j].value, 1);
      FitsWithoutDeepHoles(inputs[j].value, 1);
    }
  }

  // ------------------------------------------------------------------ host errors, said of the error object

  ghost predicate Owns(properties: seq<Property>, key: string, slot: Slot) {
    exists i :: 0 <= i < |properties| && properties[i] == Property(WellFormed(key), slot)
  }

  /** What reading a property gives: the value of the data property, `undefined` without one. */
  lemma {:induction false} ReadOwnReads(properties: seq<Property>, key: string, slot: Slot)
    requires PropertyKeysDiffer(properties) && Owns(properties, key, slot)
    ensures ReadOwn(properties, key) ==
      match slot
      case Absent => Some(UndefinedValue)
      case Accessor => None
      case Data(value) => Some(value)
  {
    var tail := properties[1..];
    if properties[0] == Property(WellFormed(key), slot) {
      forall i | 0 <= i < |tail| ensures tail[i].key != WellFormed(key) {
        assert tail[i] == properties[i + 1];
      }
      NothingRead(tail, key);
    } else {
      var i :| 0 <= i < |properties| && properties[i] == Property(WellFormed(key), slot);
      assert tail[i - 1] == properties[i];
      assert properties[0].key != properties[i].key;
      ReadOwnReads(tail, key, slot);
    }
  }

  lemma {:induction false} NothingRead(properties: seq<Property>, key: string)
    requires forall i :: 0 <= i < |properties| ==> properties[i].key != WellFormed(key)
    ensures ReadOwn(properties, key) == Some(UndefinedValue)
  {
    if properties != [] {
      NothingRead(properties[1..], key);
    }
  }

  /** The value of an own data property, `undefined` when there is none. */
  ghost predicate Has(properties: seq<Property>, key: string, value: HostValue) {
    Owns(properties, key, Data(value)) || (value.UndefinedValue? && forall other :: !Owns(properties, key, Data(other)))
  }

  lemma ReadOwnHas(properties: seq<Property>, key: string)
    requires PropertyKeysDiffer(properties)
    ensures ReadOwn(properties, key).None? <==> Owns(properties, key, Accessor)
    ensures ReadOwn(properties, key).Some? ==> forall value :: Has(properties, key, value) <==> value == ReadOwn(properties, key).value
  {
    hide ReadOwn, Owns;
    forall slot | Owns(properties, key, slot)
      ensures ReadOwn(properties, key) ==
        match slot
        case Absent => Some(UndefinedValue)
        case Accessor => None
        case Data(value) => Some(value)
    {
      ReadOwnReads(properties, key, slot);
    }
    if forall slot :: !Owns(properties, key, slot) {
      NotOwned(properties, key);
      NothingRead(properties, key);
    }
  }

  lemma NotOwned(properties: seq<Property>, key: string)
    requires forall slot :: !Owns(properties, key, slot)
    ensures forall i :: 0 <= i < |properties| ==> properties[i].key != WellFormed(key)
  {
    forall i | 0 <= i < |properties| ensures properties[i].key != WellFormed(key) {
      assert !Owns(properties, key, properties[i].slot);
      assert properties[i] == Property(properties[i].key, properties[i].slot);
    }
  }

  /** A text property is sent as it is, and anything else as the default. */
  ghost predicate TextSent(properties: seq<Property>, key: string, default: string, sent: string) {
    forall value :: Has(properties, key, value) ==>
      if value.StringValue? then value.text == WellFormed(sent) else sent == default
  }

  /** An error payload has the name, message, code and details of the error object, each from its own
      property. */
  ghost predicate ErrorShows(heap: Heap, properties: seq<Property>, error: Resume) {
    && error.ResumeError?
    && TextSent(properties, "name", "Error", error.name)
    && TextSent(properties, "message", "", error.message)
    && (forall value :: Has(properties, "code", value) ==>
          if value.StringValue? then error.code.Some? && value.text == WellFormed(error.code.value) else error.code.None?)
    && (forall value :: Has(properties, "details", value) ==>
          if value.UndefinedValue? then error.details.None?
          else error.details.Some? && Shows(heap, value, error.details.value))
  }

  /** The four properties may be sent. */
  ghost predicate ErrorMayCross(heap: Heap, properties: seq<Property>) {
    && !Owns(properties, "name", Accessor) && !Has(properties, "name", StringValue(LoneSurrogate))
    && !Owns(properties, "message", Accessor) && !Has(properties, "message", StringValue(LoneSurrogate))
    && !Owns(properties, "code", Accessor) && !Has(properties, "code", StringValue(LoneSurrogate))
    && !Owns(properties, "details", Accessor)
    && (forall value :: Has(properties, "details", value) ==> value.UndefinedValue? || Admissible(heap, value, {}, 1))
  }

  /** An error is sent exactly when its four properties may cross, and then as they are. */
  lemma ErrorIsItsParts(heap: Heap, properties: seq<Property>)
    requires PropertyKeysDiffer(properties)
    ensures ErrorOf(heap, properties).Some? <==> ErrorMayCross(heap, properties)
    ensures ErrorOf(heap, properties).Some? ==> ErrorShows(heap, properties, ErrorOf(heap, properties).value)
  {
    hide ReadOwn, Owns, Has, Unfold, Shows, Admissible;
    ReadOwnHas(properties, "name");
    ReadOwnHas(properties, "message");
    ReadOwnHas(properties, "code");
    ReadOwnHas(properties, "details");
    var details := ReadOwn(properties, "details");
    if details.Some? {
      UnfoldsExactlyAdmissible(heap, details.value, {}, 1);
      if Unfold(heap, details.value, {}, 1).Some? {
        UnfoldShows(heap, details.value, {}, 1);
      }
    }
  }

  /** Its texts, and the lengths in its details, fit 32 bits. */
  ghost predicate SmallError(heap: Heap, properties: seq<Property>) {
    forall error :: ErrorShows(heap, properties, error) ==> ResumeSized(error)
  }

  /** An error arrives with the parts of the error object, and is refused exactly for a hole at the deepest
      level of its details. */
  ghost predicate ErrorArrives(heap: Heap, properties: seq<Property>, arrived: Option<Resume>) {
    && (arrived.Some? ==> ErrorShows(heap, properties, arrived.value))
    && (arrived.Some? <==>
          forall value :: Has(properties, "details", value) && !value.UndefinedValue? ==> NoDeepHoleIn(heap, value))
  }

  lemma HostErrorShows(heap: Heap, properties: seq<Property>)
    requires UniqueKeys(heap) && PropertyKeysDiffer(properties) && SmallError(heap, properties)
    requires ErrorOf(heap, properties).Some?
    ensures ErrorArrives(heap, properties, DecodeResume(ResumeBytes(ErrorOf(heap, properties).value)))
  {
    hide ErrorOf, DecodeResume, ResumeBytes, ResumeSized, NoDeepHole, UniqueKeys, Shows, TextSent, Has, ReadOwn;
    ErrorIsItsParts(heap, properties);
    HostErrorArrives(heap, properties);
    var error := ErrorOf(heap, properties).value;
    DetailsRead(heap, properties);
    var details := ReadOwn(properties, "details").value;
    if error.details.Some? {
      OnlyWhatIsShown(heap, details, error.details.value);
    }
  }

  /** The one value of `details`. */
  lemma DetailsRead(heap: Heap, properties: seq<Property>)
    requires PropertyKeysDiffer(properties) && ErrorOf(heap, properties).Some?
    ensures ReadOwn(properties, "details").Some?
    ensures forall value :: Has(properties, "details", value) <==> value == ReadOwn(properties, "details").value
  {
    hide Has, ReadOwn;
    ReadOwnHas(properties, "details");
  }

  lemma ErrorShowsIfSent(heap: Heap, properties: seq<Property>)
    ensures PropertyKeysDiffer(properties) ==> (ErrorOf(heap, properties).Some? <==> ErrorMayCross(heap, properties))
    ensures ErrorOf(heap, properties).Some? && UniqueKeys(heap) && PropertyKeysDiffer(properties) && SmallError(heap, properties) ==>
      ErrorArrives(heap, properties, DecodeResume(ResumeBytes(ErrorOf(heap, properties).value)))
  {
    hide ErrorOf, ErrorMayCross, ErrorArrives, SmallError, UniqueKeys, PropertyKeysDiffer, DecodeResume, ResumeBytes;
    if PropertyKeysDiffer(properties) {
      ErrorIsItsParts(heap, properties);
      if ErrorOf(heap, properties).Some? && UniqueKeys(heap) && SmallError(heap, properties) {
        HostErrorShows(heap, properties);
      }
    }
  }

  lemma StartShowsIfSent(heap: Heap, properties: seq<Property>, capabilities: seq<JsString>, limits: Limits<F64>)
    ensures SmallStart(heap, properties, capabilities) && InputEntries(heap, properties).Some? && Texts(capabilities).Some? ==>
      StartArrives(heap, properties, capabilities, limits,
                   DecodeStartOptions(StartBytes(InputEntries(heap, properties).value, Texts(capabilities).value, limits)))
  {
    hide SmallStart, StartArrives, DecodeStartOptions, StartBytes, InputEntries, Texts;
    if SmallStart(heap, properties, capabilities) && InputEntries(heap, properties).Some? && Texts(capabilities).Some? {
      StartShows(heap, properties, capabilities, limits);
    }
  }

  // ------------------------------------------------------------------ which inputs are sent

  /** Every own property has a well-formed name and is no accessor, and its value may cross. */
  ghost predicate InputsMayCross(heap: Heap, properties: seq<Property>) {
    forall i :: 0 <= i < |properties| ==>
      && properties[i].key.WellFormed? && !properties[i].slot.Accessor?
      && (properties[i].slot.Data? ==> Admissible(heap, properties[i].slot.value, {}, 1))
  }

  lemma InputsAreSentExactly(heap: Heap, properties: seq<Property>)
    ensures InputEntries(heap, properties).Some? <==> InputsMayCross(heap, properties)
  {
    hide Admissible, UnfoldFields;
    if Enumerable(properties) {
      var fields := DataFields(properties);
      FieldsUnfoldExactlyAdmissible(heap, fields, {}, 1);
      FieldValuesAreData(properties);
      assert forall child :: child in FieldValues(fields) <==> exists i :: 0 <= i < |properties| && properties[i].slot == Data(child);
      assert forall i :: 0 <= i < |properties| && properties[i].slot.Data? ==> properties[i].slot == Data(properties[i].slot.value);
    }
  }

  lemma {:induction false} FieldValuesAreData(properties: seq<Property>)
    requires Enumerable(properties)
    ensures forall child :: child in FieldValues(DataFields(properties)) <==>
      exists i :: 0 <= i < |properties| && properties[i].slot == Data(child)
  {
    if properties != [] {
      var tail := properties[1..];
      FieldValuesAreData(tail);
      assert properties == [properties[0]] + tail;
      assert forall child, i :: 0 <= i < |tail| && tail[i].slot == Data(child) ==> properties[i + 1].slot == Data(child);
      assert forall child, i :: 0 < i < |properties| && properties[i].slot == Data(child) ==> tail[i - 1].slot == Data(child);
      if properties[0].slot.Data? {
        assert DataFields(properties)[1..] == DataFields(tail);
      }
    }
  }

  /** Structured inputs arrive as the entries that the properties show. */
  ghost predicate InputsArrive(heap: Heap, properties: seq<Property>, arrived: Option<seq<Entry>>) {
    && (arrived.Some? ==> ShowsProperties(heap, properties, arrived.value))
    && (arrived.Some? <==> forall i :: 0 <= i < |properties| && properties[i].slot.Data? ==> NoDeepHoleIn(heap, properties[i].slot.value))
  }

  lemma InputsShowIfSent(heap: Heap, properties: seq<Property>)
    ensures InputEntries(heap, properties).Some? && SmallStart(heap, properties, []) ==>
      InputsArrive(heap, properties, DecodeInputs(InputsBytes(InputEntries(heap, properties).value)))
  {
    hide InputEntries, ShowsProperties, DistinctKeys, ArraysFit, Sized, Fits, DecodeInputs, InputsBytes, FitsString, NoDeepHole, NoDeepHoleIn,
      InputsFit, SmallStart;
    if InputEntries(heap, properties).Some? && SmallStart(heap, properties, []) {
      var inputs := InputEntries(heap, properties).value;
      InputsAreShown(heap, properties);
      InputsAreSized(heap, properties, [], inputs);
      KeysAreUnique(heap, properties, []);
      InputsAreDistinct(heap, properties);
      StructuredInputsRoundTrip(inputs);
      InputsHaveNoDeepHole(heap, properties, inputs);
      InputsFitWithoutDeepHoles(heap, properties);
    }
  }

  lemma KeysAreUnique(heap: Heap, properties: seq<Property>, capabilities: seq<JsString>)
    requires SmallStart(heap, properties, capabilities)
    ensures UniqueKeys(heap) && PropertyKeysDiffer(properties)
  {
  }
}

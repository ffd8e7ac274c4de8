/**
 The tagged JSON tree form of a structured value (lib/structured.ts:127-333) and the suspended
 manifest built from it (lib/policy.ts:344-379).  JSON text is not modelled: `JSON.stringify`
 followed by `JSON.parse` is the identity on `Json`.
 */
module TaggedTree {
  import opened Wrappers
  import opened StructuredValues
  import opened BoundaryFormat

  datatype Json =
    | JNull
    | JBool(flag: bool)
    | JNumber(bits: F64)
    | JString(text: string)
    | JArray(items: seq<Json>)
    | JObject(members: seq<Member>)

  /** Own enumerable properties in order; a JavaScript object has each name once. */
  datatype Member = Member(name: string, value: Json)

  function Get(members: seq<Member>, name: string): Option<Json> {
    if members == [] then None
    else if members[0].name == name then Some(members[0].value)
    else Get(members[1..], name)
  }

  function Single(name: string, value: Json): Json {
    JObject([Member(name, value)])
  }

  /** `encodeNumber`. */
  function TagNumber(number: StructuredNumber): Json {
    match number
    case NaN => JString("NaN")
    case NegZero => JString("NegZero")
    case Infinity => JString("Infinity")
    case NegInfinity => JString("NegInfinity")
    case Finite(bits) => Single("Finite", JNumber(bits))
  }

  /** The tree the slower encoder builds for a value. */
  function Tag(value: StructuredValue): Json
    decreases value, 1
  {
    match value
    case Undefined => JString("Undefined")
    case Null => JString("Null")
    case Hole => JString("Hole")
    case Bool(flag) => Single("Bool", JBool(flag))
    case String(text) => Single("String", JString(text))
    case Number(number) => Single("Number", TagNumber(number))
    case Array(items) => Single("Array", JArray(TagItems(items)))
    case Object(entries) => Single("Object", JObject(TagEntries(entries)))
  }

  function TagItems(items: seq<StructuredValue>): (tagged: seq<Json>)
    ensures |tagged| == |items|
    decreases items, 0
  {
    if items == [] then [] else [Tag(items[0])] + TagItems(items[1..])
  }

  function TagEntries(entries: seq<Entry>): seq<Member>
    decreases entries, 0
  {
    if entries == [] then [] else [Member(entries[0].key, Tag(entries[0].value))] + TagEntries(entries[1..])
  }

  /** The number under a `Number` tag, as the host float it stands for. */
  function Untagged(json: Json): Option<StructuredNumber> {
    if json == JString("NaN") then Some(NaN)
    else if json == JString("Infinity") then Some(Infinity)
    else if json == JString("NegInfinity") then Some(NegInfinity)
    else if json == JString("NegZero") then Some(NegZero)
    else if json.JObject? && Get(json.members, "Finite").Some? && Get(json.members, "Finite").value.JNumber? then
      Some(FromF64(Get(json.members, "Finite").value.bits))
    else None
  }

  /** `decodeStructured`; the host value it returns is written as a `StructuredValue`. */
  function Untag(json: Json, depth: nat): Option<StructuredValue>
    decreases Levels(depth), 0, 0
  {
    if depth > MAX_DEPTH then None
    else if json == JString("Undefined") then Some(Undefined)
    else if json == JString("Null") then Some(Null)
    else if !json.JObject? then None
    else if Get(json.members, "Bool").Some? then
      var payload := Get(json.members, "Bool").value;
      if payload.JBool? then Some(Bool(payload.flag)) else None
    else if Get(json.members, "String").Some? then
      var payload := Get(json.members, "String").value;
      if payload.JString? then Some(String(payload.text)) else None
    else if Get(json.members, "Number").Some? then
      match Untagged(Get(json.members, "Number").value)
      case None => None
      case Some(number) => Some(Number(number))
    else if Get(json.members, "Array").Some? then
      var payload := Get(json.members, "Array").value;
      if !payload.JArray? || |payload.items| > MAX_ARRAY_LENGTH then None
      else
        match UntagItems(payload.items, depth + 1)
        case None => None
        case Some(items) => Some(Array(items))
    else if Get(json.members, "Object").Some? then
      var payload := Get(json.members, "Object").value;
      if !payload.JObject? then None
      else
        match UntagEntries(payload.members, depth + 1)
        case None => None
        case Some(entries) => Some(Object(entries))
    else None
  }

  function UntagItems(items: seq<Json>, depth: nat): Option<seq<StructuredValue>>
    decreases Levels(depth), 1, |items|
  {
    if items == [] then Some([])
    else
      match if items[0] == JString("Hole") then Some(Hole) else Untag(items[0], depth)
      case None => None
      case Some(item) =>
        match UntagItems(items[1..], depth)
        case None => None
        case Some(rest) => Some([item] + rest)
  }

  function UntagEntries(members: seq<Member>, depth: nat): Option<seq<Entry>>
    decreases Levels(depth), 1, |members|
  {
    if members == [] then Some([])
    else
      match Untag(members[0].value, depth)
      case None => None
      case Some(value) =>
        match UntagEntries(members[1..], depth)
        case None => None
        case Some(rest) => Some([Entry(members[0].name, value)] + rest)
  }

  // ------------------------------------------------------------------ which values survive

  /** A value the host can hold: holes stand only in arrays, numbers are canonical, arrays are not
      too long, and nothing but a hole is nested deeper than the limit. */
  predicate HostShaped(value: StructuredValue, depth: nat)
    decreases value
  {
    && depth <= MAX_DEPTH
    && match value
       case Hole => false
       case Number(number) => CanonicalNumber(number)
       case Array(items) =>
         && |items| <= MAX_ARRAY_LENGTH
         && forall i :: 0 <= i < |items| ==> items[i].Hole? || HostShaped(items[i], depth + 1)
       case Object(entries) => forall i :: 0 <= i < |entries| ==> HostShaped(entries[i].value, depth + 1)
       case _ => true
  }

  lemma TagIsHole(value: StructuredValue)
    ensures Tag(value) == JString("Hole") <==> value.Hole?
  {
    assert "Undefined"[0] != "Hole"[0] && "Null"[0] != "Hole"[0];
  }

  lemma UntaggedAfterTag(number: StructuredNumber)
    ensures Untagged(TagNumber(number)) == Some(number) <==> CanonicalNumber(number)
  {
    assert |"NaN"| == 3 && |"NegZero"| == 7 && |"Infinity"| == 8 && |"NegInfinity"| == 11;
    NumberConversionsInvert(0, number);
    if number.Finite? {
      GetSingle("Finite", JNumber(number.bits));
    }
  }

  /** The tree form of a value is decoded to that value exactly when the host can hold it. */
  lemma {:induction false} UntagAfterTag(value: StructuredValue, depth: nat)
    ensures Untag(Tag(value), depth) == Some(value) <==> HostShaped(value, depth)
    decreases value, 1
  {
    hide TagItems, TagEntries, UntagItems, UntagEntries, Untagged, TagNumber, CanonicalNumber;
    assert |"Undefined"| == 9 && |"Null"| == 4 && |"Hole"| == 4 && "Hole"[0] == 'H' && "Null"[0] == 'N';
    assert |"Bool"| == 4 && |"String"| == 6 && |"Number"| == 6 && |"Array"| == 5 && |"Object"| == 6;
    assert "String"[0] == 'S' && "Number"[0] == 'N' && "Object"[0] == 'O';
    if Tag(value).JObject? {
      GetSingle(Tag(value).members[0].name, Tag(value).members[0].value);
    }
    match value
    case Number(number) => UntaggedAfterTag(number);
    case Array(items) => UntagAfterTagItems(items, depth + 1);
    case Object(entries) => UntagAfterTagEntries(entries, depth + 1);
    case _ =>
  }

  lemma GetSingle(name: string, value: Json)
    ensures forall other :: Get([Member(name, value)], other) == if name == other then Some(value) else None
  {
    assert [Member(name, value)][1..] == [];
  }

  lemma {:induction false} UntagAfterTagItems(items: seq<StructuredValue>, depth: nat)
    ensures UntagItems(TagItems(items), depth) == Some(items) <==>
      forall i :: 0 <= i < |items| ==> items[i].Hole? || HostShaped(items[i], depth)
    decreases items, 0
  {
    if items != [] {
      TagIsHole(items[0]);
      UntagAfterTag(items[0], depth);
      UntagAfterTagItems(items[1..], depth);
      assert items == [items[0]] + items[1..];
    }
  }

  lemma {:induction false} UntagAfterTagEntries(entries: seq<Entry>, depth: nat)
    ensures UntagEntries(TagEntries(entries), depth) == Some(entries) <==>
      forall i :: 0 <= i < |entries| ==> HostShaped(entries[i].value, depth)
    decreases entries, 0
  {
    if entries != [] {
      UntagAfterTag(entries[0].value, depth);
      UntagAfterTagEntries(entries[1..], depth);
      assert entries == [entries[0]] + entries[1..];
    }
  }

  // ------------------------------------------------------------------ lists of arguments

  /** Decode a list: the manifest reader decodes every argument at depth 1, while `parseStep` and
      `parseSnapshotInspection` hand `decodeStructured` to `map` directly, so that each argument's
      position arrives as its depth (lib/progress.ts:688 and 704). */
  function UntagArgs(items: seq<Json>, first: nat, byPosition: bool): Option<seq<StructuredValue>>
    decreases |items|
  {
    if items == [] then Some([])
    else
      match Untag(items[0], if byPosition then first else 1)
      case None => None
      case Some(arg) =>
        match UntagArgs(items[1..], first + 1, byPosition)
        case None => None
        case Some(rest) => Some([arg] + rest)
  }

  /** `createSuspendedManifest` for arguments that encode. */
  function Manifest(capability: string, args: seq<StructuredValue>): Json {
    JObject([Member("capability", JString(capability)), Member("args", JArray(TagItems(args)))])
  }

  /** `parseSuspendedManifest`. */
  function ParseManifest(manifest: Json): Option<(string, seq<StructuredValue>)> {
    if !manifest.JObject? then None
    else
      match (Get(manifest.members, "capability"), Get(manifest.members, "args"))
      case (Some(JString(capability)), Some(JArray(args))) =>
        if capability == "" then None
        else
          (match UntagArgs(args, 0, false)
           case None => None
           case Some(values) => Some((capability, values)))
      case _ => None
  }

  lemma {:induction false} ArgsRoundTrip(args: seq<StructuredValue>, first: nat, byPosition: bool)
    ensures UntagArgs(TagItems(args), first, byPosition) == Some(args) <==>
      forall i :: 0 <= i < |args| ==> HostShaped(args[i], if byPosition then first + i else 1)
  {
    hide HostShaped, Untag, Tag;
    if args != [] {
      UntagAfterTag(args[0], if byPosition then first else 1);
      ArgsRoundTrip(args[1..], first + 1, byPosition);
      assert args == [args[0]] + args[1..];
      assert TagItems(args)[1..] == TagItems(args[1..]);
      assert forall i :: 1 <= i < |args| ==> args[i] == args[1..][i - 1];
    }
  }

  /** The suspended call survives the manifest exactly when the host can hold its arguments. */
  lemma ManifestRoundTrip(capability: string, args: seq<StructuredValue>)
    ensures ParseManifest(Manifest(capability, args)) == Some((capability, args)) <==>
      capability != "" && forall i :: 0 <= i < |args| ==> HostShaped(args[i], 1)
  {
    ArgsRoundTrip(args, 0, false);
    assert "capability"[0] == 'c' && "args"[0] == 'a';
    var members := Manifest(capability, args).members;
    assert Get(members, "args") == Get(members[1..], "args");
  }

  /** Nesting levels, a hole inside an array not counted. */
  function Height(value: StructuredValue): (height: nat)
    ensures height >= 1
    decreases value, 1
  {
    match value
    case Array(items) => 1 + ItemsHeight(items)
    case Object(entries) => 1 + EntriesHeight(entries)
    case _ => 1
  }

  function Max(a: nat, b: nat): nat {
    if a < b then b else a
  }

  function ItemsHeight(items: seq<StructuredValue>): nat
    decreases items, 0
  {
    if items == [] then 0 else Max(if items[0].Hole? then 0 else Height(items[0]), ItemsHeight(items[1..]))
  }

  function EntriesHeight(entries: seq<Entry>): nat
    decreases entries, 0
  {
    if entries == [] then 0 else Max(Height(entries[0].value), EntriesHeight(entries[1..]))
  }

  /** Moving a value to another depth matters only through its height. */
  lemma {:induction false} ShapedAtDepth(value: StructuredValue, here: nat, there: nat)
    requires HostShaped(value, here)
    ensures HostShaped(value, there) <==> there + Height(value) <= MAX_DEPTH + 1
    decreases value, 1
  {
    if there <= MAX_DEPTH {
      match value
      case Array(items) => ItemsShapedAtDepth(items, here + 1, there + 1);
      case Object(entries) => EntriesShapedAtDepth(entries, here + 1, there + 1);
      case _ =>
    }
  }

  lemma {:induction false} ItemsShapedAtDepth(items: seq<StructuredValue>, here: nat, there: nat)
    requires forall i :: 0 <= i < |items| ==> items[i].Hole? || HostShaped(items[i], here)
    requires there <= MAX_DEPTH + 1
    ensures (forall i :: 0 <= i < |items| ==> items[i].Hole? || HostShaped(items[i], there))
      <==> there + ItemsHeight(items) <= MAX_DEPTH + 1
    decreases items, 0
  {
    if items != [] {
      if !items[0].Hole? {
        ShapedAtDepth(items[0], here, there);
      }
      ItemsShapedAtDepth(items[1..], here, there);
      assert items == [items[0]] + items[1..];
    }
  }

  lemma {:induction false} EntriesShapedAtDepth(entries: seq<Entry>, here: nat, there: nat)
    requires forall i :: 0 <= i < |entries| ==> HostShaped(entries[i].value, here)
    requires there <= MAX_DEPTH + 1
    ensures (forall i :: 0 <= i < |entries| ==> HostShaped(entries[i].value, there))
      <==> there + EntriesHeight(entries) <= MAX_DEPTH + 1
    decreases entries, 0
  {
    if entries != [] {
      ShapedAtDepth(entries[0].value, here, there);
      EntriesShapedAtDepth(entries[1..], here, there);
      assert entries == [entries[0]] + entries[1..];
    }
  }

  /** `parseStep` does not return every suspended call whose arguments may cross: it does exactly
      when each argument's position plus its height stays within the limit. */
  lemma StepArgsRoundTrip(args: seq<StructuredValue>)
    requires forall i :: 0 <= i < |args| ==> HostShaped(args[i], 1)
    ensures UntagArgs(TagItems(args), 0, true) == Some(args) <==>
      forall i :: 0 <= i < |args| ==> i + Height(args[i]) <= MAX_DEPTH + 1
  {
    hide HostShaped, UntagArgs, TagItems, Height;
    ArgsRoundTrip(args, 0, true);
    forall i | 0 <= i < |args| ensures HostShaped(args[i], i) <==> i + Height(args[i]) <= MAX_DEPTH + 1 {
      ShapedAtDepth(args[i], 1, i);
    }
  }

  /** No list of more than 129 arguments is decoded by position, whatever the arguments are. */
  lemma {:induction false} DecodedByPosition(items: seq<Json>, first: nat)
    requires items != []
    ensures UntagArgs(items, first, true).Some? ==> first + |items| <= MAX_DEPTH + 1
    decreases |items|
  {
    if |items| > 1 {
      DecodedByPosition(items[1..], first + 1);
    }
  }

  /** A call with 130 arguments, each `undefined`: the manifest keeps it, `parseStep` throws. */
  lemma ManyArgumentsAreLost()
    ensures var args := seq(130, _ => Undefined);
      && ParseManifest(Manifest("f", args)) == Some(("f", args))
      && UntagArgs(TagItems(args), 0, true) == None
  {
    var args := seq(130, _ => Undefined);
    ManifestRoundTrip("f", args);
    DecodedByPosition(TagItems(args), 0);
  }
}

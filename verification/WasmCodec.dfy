/**
 The plain-JSON codec of the browser build (crates/mustard-wasm/src/lib.rs:227-296): values JSON
 lacks are objects with a single `$mustard` key.
 */
module WasmCodec {
  import opened Wrappers
  import opened StructuredValues
  import opened BoundaryReader

  const ESCAPE_KEY: string := "$mustard"

  /** A JSON object is a map; a JSON number is read as the float it stands for. */
  datatype PlainJson =
    | PNull
    | PBool(flag: bool)
    | PNumber(bits: F64)
    | PString(text: string)
    | PArray(items: seq<PlainJson>)
    | PObject(members: map<string, PlainJson>)

  /** A structured value with the order of object entries forgotten. */
  datatype Unordered =
    | UUndefined
    | UNull
    | UHole
    | UBool(flag: bool)
    | UString(text: string)
    | UNumber(number: StructuredNumber)
    | UArray(items: seq<Unordered>)
    | UObject(entries: map<string, Unordered>)

  function Sentinel(tag: string): PlainJson {
    PObject(map[ESCAPE_KEY := PString(tag)])
  }

  /** `structured_to_json`. */
  function ToJson(value: StructuredValue): PlainJson
    decreases value, 1
  {
    match value
    case Undefined => Sentinel("undefined")
    case Null => PNull
    case Hole => Sentinel("hole")
    case Bool(flag) => PBool(flag)
    case String(text) => PString(text)
    case Number(Finite(bits)) => if Magnitude(bits) < POSITIVE_INFINITY then PNumber(bits) else Sentinel("nan")
    case Number(NaN) => Sentinel("nan")
    case Number(Infinity) => Sentinel("infinity")
    case Number(NegInfinity) => Sentinel("neg_infinity")
    case Number(NegZero) => Sentinel("neg_zero")
    case Array(items) => PArray(ItemsToJson(items))
    case Object(entries) => PObject(EntriesToJson(entries))
  }

  function ItemsToJson(items: seq<StructuredValue>): seq<PlainJson>
    decreases items, 0
  {
    if items == [] then [] else [ToJson(items[0])] + ItemsToJson(items[1..])
  }

  function EntriesToJson(entries: seq<Entry>): map<string, PlainJson>
    decreases entries, 0
  {
    if entries == [] then map[]
    else map[entries[0].key := ToJson(entries[0].value)] + EntriesToJson(entries[1..])
  }

  function FromTag(tag: string): Option<Unordered> {
    if tag == "undefined" then Some(UUndefined)
    else if tag == "hole" then Some(UHole)
    else if tag == "nan" then Some(UNumber(NaN))
    else if tag == "infinity" then Some(UNumber(Infinity))
    else if tag == "neg_infinity" then Some(UNumber(NegInfinity))
    else if tag == "neg_zero" then Some(UNumber(NegZero))
    else None
  }

  /** `plain_json_to_structured`; the escape key is taken out even when it holds no tag. */
  function FromJson(json: PlainJson): Option<Unordered>
    decreases json, 1
  {
    match json
    case PNull => Some(UNull)
    case PBool(flag) => Some(UBool(flag))
    case PNumber(bits) => Some(UNumber(FromF64(bits)))
    case PString(text) => Some(UString(text))
    case PArray(items) =>
      (match ItemsFromJson(items)
       case None => None
       case Some(values) => Some(UArray(values)))
    case PObject(members) =>
      if ESCAPE_KEY in members && members[ESCAPE_KEY].PString? then FromTag(members[ESCAPE_KEY].text)
      else if forall key :: key in members && key != ESCAPE_KEY ==> FromJson(members[key]).Some? then
        Some(UObject(map key | key in members && key != ESCAPE_KEY :: FromJson(members[key]).value))
      else None
  }

  function ItemsFromJson(items: seq<PlainJson>): Option<seq<Unordered>>
    decreases items, 0
  {
    if items == [] then Some([])
    else
      match FromJson(items[0])
      case None => None
      case Some(value) =>
        match ItemsFromJson(items[1..])
        case None => None
        case Some(values) => Some([value] + values)
  }

  function Forget(value: StructuredValue): Unordered
    decreases value, 1
  {
    match value
    case Undefined => UUndefined
    case Null => UNull
    case Hole => UHole
    case Bool(flag) => UBool(flag)
    case String(text) => UString(text)
    case Number(number) => UNumber(number)
    case Array(items) => UArray(ForgetItems(items))
    case Object(entries) => UObject(ForgetEntries(entries))
  }

  function ForgetItems(items: seq<StructuredValue>): seq<Unordered>
    decreases items, 0
  {
    if items == [] then [] else [Forget(items[0])] + ForgetItems(items[1..])
  }

  function ForgetEntries(entries: seq<Entry>): map<string, Unordered>
    decreases entries, 0
  {
    if entries == [] then map[]
    else map[entries[0].key := Forget(entries[0].value)] + ForgetEntries(entries[1..])
  }

  /** Numbers are canonical and no object, at any depth, uses the escape key. */
  predicate Crosses(value: StructuredValue) {
    match value
    case Number(number) => CanonicalNumber(number)
    case Array(items) => forall i :: 0 <= i < |items| ==> Crosses(items[i])
    case Object(entries) => forall i :: 0 <= i < |entries| ==> entries[i].key != ESCAPE_KEY && Crosses(entries[i].value)
    case _ => true
  }

  /** Writing a value as JSON and reading it back gives the value, objects compared as maps, exactly
      when its numbers are canonical and the escape key is used nowhere. */
  lemma {:induction false} JsonRoundTrip(value: StructuredValue)
    requires DistinctKeys(value)
    ensures FromJson(ToJson(value)) == Some(Forget(value)) <==> Crosses(value)
    decreases value, 1
  {
    TagsDiffer();
    match value
    case Array(items) => ItemsRoundTrip(items);
    case Object(entries) => ObjectRoundTrip(entries);
    case _ =>
  }

  lemma TagsDiffer()
    ensures FromTag("undefined") == Some(UUndefined) && FromTag("hole") == Some(UHole) && FromTag("nan") == Some(UNumber(NaN))
    ensures FromTag("infinity") == Some(UNumber(Infinity)) && FromTag("neg_infinity") == Some(UNumber(NegInfinity))
    ensures FromTag("neg_zero") == Some(UNumber(NegZero))
  {
    assert |"undefined"| == 9 && |"hole"| == 4 && |"nan"| == 3 && |"infinity"| == 8 && |"neg_infinity"| == 12;
    assert |"neg_zero"| == 8 && "neg_zero"[0] == 'n' && "infinity"[0] == 'i';
  }

  lemma {:induction false} ItemsRoundTrip(items: seq<StructuredValue>)
    requires forall i :: 0 <= i < |items| ==> DistinctKeys(items[i])
    ensures ItemsFromJson(ItemsToJson(items)) == Some(ForgetItems(items)) <==> forall i :: 0 <= i < |items| ==> Crosses(items[i])
    decreases items, 0
  {
    hide FromJson, ToJson, Forget, Crosses, DistinctKeys;
    if items != [] {
      JsonRoundTrip(items[0]);
      ItemsRoundTrip(items[1..]);
      assert items == [items[0]] + items[1..];
      var written, kept := ItemsToJson(items), ForgetItems(items);
      assert written[1..] == ItemsToJson(items[1..]) && kept[1..] == ForgetItems(items[1..]);
      var read := ItemsFromJson(written);
      assert read.Some? ==> read.value[0] == FromJson(ToJson(items[0])).value;
      assert read.Some? ==> read.value[1..] == ItemsFromJson(written[1..]).value;
      assert kept[0] == Forget(items[0]);
    }
  }

  /** With distinct keys, both maps hold each entry under its key and nothing else. */
  lemma {:induction false} EntriesAsMaps(entries: seq<Entry>)
    requires KeysDiffer(entries)
    ensures forall i :: 0 <= i < |entries| ==>
      && entries[i].key in EntriesToJson(entries) && EntriesToJson(entries)[entries[i].key] == ToJson(entries[i].value)
      && entries[i].key in ForgetEntries(entries) && ForgetEntries(entries)[entries[i].key] == Forget(entries[i].value)
    ensures forall key :: key in EntriesToJson(entries) <==> HasEntry(entries, key)
    ensures forall key :: key in ForgetEntries(entries) <==> HasEntry(entries, key)
  {
    hide ToJson, Forget, HasEntry;
    if entries == [] {
      forall key ensures !HasEntry(entries, key) {
        NoEntry(key);
      }
    } else {
      EntriesAsMaps(entries[1..]);
      forall key ensures HasEntry(entries, key) <==> key == entries[0].key || HasEntry(entries[1..], key) {
        FirstEntry(entries, key);
      }
      FirstKeyIsNew(entries);
      assert forall i :: 1 <= i < |entries| ==> entries[i] == entries[1..][i - 1];
    }
  }

  lemma {:induction false} ObjectRoundTrip(entries: seq<Entry>)
    requires DistinctKeys(Object(entries))
    ensures FromJson(ToJson(Object(entries))) == Some(Forget(Object(entries))) <==> Crosses(Object(entries))
    decreases entries, 0
  {
    var members, forgotten := EntriesToJson(entries), ForgetEntries(entries);
    EntriesAsMaps(entries);
    forall i | 0 <= i < |entries|
      ensures FromJson(members[entries[i].key]) == Some(forgotten[entries[i].key]) <==> Crosses(entries[i].value)
    {
      JsonRoundTrip(entries[i].value);
    }
    if ESCAPE_KEY !in members {
      ObjectReadBack(members, forgotten);
    } else {
      EscapedIsNotReadBack(members, forgotten);
    }
  }

  lemma ObjectReadBack(members: map<string, PlainJson>, forgotten: map<string, Unordered>)
    requires members.Keys == forgotten.Keys && ESCAPE_KEY !in members
    ensures FromJson(PObject(members)) == Some(UObject(forgotten)) <==>
      forall key :: key in members ==> FromJson(members[key]) == Some(forgotten[key])
  {
    var json := PObject(members);
    if forall key :: key in members ==> FromJson(members[key]) == Some(forgotten[key]) {
      assert FromJson(json).value.entries == forgotten;
    }
  }

  lemma EscapedIsNotReadBack(members: map<string, PlainJson>, forgotten: map<string, Unordered>)
    requires ESCAPE_KEY in forgotten
    ensures FromJson(PObject(members)) != Some(UObject(forgotten))
  {
    var read := FromJson(PObject(members));
    if read.Some? && read.value.UObject? {
      assert ESCAPE_KEY !in read.value.entries;
    }
  }

  /** The JSON form of each kind of value: what JSON has is itself, and the rest is named under the escape
      key. */
  lemma KnownJson(text: string, item: StructuredValue, other: StructuredValue, key: string)
    ensures ToJson(Null) == PNull && ToJson(Bool(true)) == PBool(true) && ToJson(Bool(false)) == PBool(false)
    ensures ToJson(String(text)) == PString(text) && ToJson(Number(Finite(0x3FF0_0000_0000_0000))) == PNumber(0x3FF0_0000_0000_0000)
    ensures ToJson(Undefined) == PObject(map["$mustard" := PString("undefined")])
    ensures ToJson(Hole) == PObject(map["$mustard" := PString("hole")])
    ensures ToJson(Number(NaN)) == PObject(map["$mustard" := PString("nan")])
    ensures ToJson(Number(Infinity)) == PObject(map["$mustard" := PString("infinity")])
    ensures ToJson(Number(NegInfinity)) == PObject(map["$mustard" := PString("neg_infinity")])
    ensures ToJson(Number(NegZero)) == PObject(map["$mustard" := PString("neg_zero")])
    ensures ToJson(Array([item, other])) == PArray([ToJson(item), ToJson(other)])
    ensures ToJson(Object([Entry(key, item)])) == PObject(map[key := ToJson(item)])
  {
    TwoJsonItems(item, other);
    OneJsonEntry(key, item);
    hide ItemsToJson, EntriesToJson;
  }

  lemma TwoJsonItems(item: StructuredValue, other: StructuredValue)
    ensures ItemsToJson([item, other]) == [ToJson(item), ToJson(other)]
  {
    hide ToJson;
    var items := [item, other];
    assert items[1..] == [other] && [other][1..] == [];
    assert ItemsToJson(items) == [ToJson(item)] + ItemsToJson([other]);
    assert ItemsToJson([other]) == [ToJson(other)] + ItemsToJson([]);
  }

  lemma OneJsonEntry(key: string, item: StructuredValue)
    ensures EntriesToJson([Entry(key, item)]) == map[key := ToJson(item)]
  {
    hide ToJson;
    assert [Entry(key, item)][1..] == [];
  }

  // ------------------------------------------------------------------ what is forgotten

  /** The same values with the entries of objects in any order. */
  ghost predicate SameUpToOrder(a: StructuredValue, b: StructuredValue)
    decreases a
  {
    match a
    case Array(items) =>
      b.Array? && |items| == |b.items| && forall i :: 0 <= i < |items| ==> SameUpToOrder(items[i], b.items[i])
    case Object(entries) =>
      && b.Object?
      && (forall k :: 0 <= k < |b.entries| ==> HasEntry(entries, b.entries[k].key))
      && (forall i :: 0 <= i < |entries| ==> HasSame(entries[i], b.entries))
    case _ => a == b
  }

  lemma {:induction false} ForgottenItems(items: seq<StructuredValue>)
    ensures |ForgetItems(items)| == |items| && forall i :: 0 <= i < |items| ==> ForgetItems(items)[i] == Forget(items[i])
    decreases |items|
  {
    hide Forget;
    if items != [] {
      ForgottenItems(items[1..]);
    }
  }

  /** Only the order of entries is forgotten. */
  lemma {:induction false} OnlyOrderIsForgotten(a: StructuredValue, b: StructuredValue)
    requires DistinctKeys(a) && DistinctKeys(b) && Forget(a) == Forget(b)
    ensures SameUpToOrder(a, b)
    decreases a, 1
  {
    match a
    case Array(items) =>
      ForgottenItems(items);
      ForgottenItems(b.items);
      forall i | 0 <= i < |items| ensures SameUpToOrder(items[i], b.items[i]) {
        assert Forget(items[i]) == ForgetItems(items)[i] == ForgetItems(b.items)[i] == Forget(b.items[i]);
        OnlyOrderIsForgotten(items[i], b.items[i]);
      }
    case Object(entries) => OnlyEntryOrderIsForgotten(entries, b.entries);
    case _ =>
  }

  ghost predicate HasSame(entry: Entry, entries: seq<Entry>)
    decreases entry
  {
    exists k :: 0 <= k < |entries| && entries[k].key == entry.key && SameUpToOrder(entry.value, entries[k].value)
  }

  lemma {:induction false} OnlyEntryOrderIsForgotten(a: seq<Entry>, b: seq<Entry>)
    requires DistinctKeys(Object(a)) && DistinctKeys(Object(b)) && ForgetEntries(a) == ForgetEntries(b)
    ensures SameUpToOrder(Object(a), Object(b))
    decreases Object(a), 0
  {
    hide Forget, ForgetEntries, HasEntry;
    EntriesAsMaps(a);
    EntriesAsMaps(b);
    forall k | 0 <= k < |b| ensures HasEntry(a, b[k].key) {
      assert b[k].key in ForgetEntries(a);
    }
    forall i | 0 <= i < |a| ensures HasSame(a[i], b) {
      var k := EntryOf(a[i].key, b);
      OnlyOrderIsForgotten(a[i].value, b[k].value);
    }
  }

  lemma EntryOf(key: string, entries: seq<Entry>) returns (k: nat)
    requires KeysDiffer(entries) && key in ForgetEntries(entries)
    ensures k < |entries| && entries[k].key == key
  {
    hide ForgetEntries;
    EntriesAsMaps(entries);
    assert HasEntry(entries, key);
    k :| 0 <= k < |entries| && entries[k].key == key;
  }

  /** On those values the JSON form decides the value, up to the order of entries. */
  lemma JsonIsInjective(a: StructuredValue, b: StructuredValue)
    requires DistinctKeys(a) && DistinctKeys(b) && Crosses(a) && Crosses(b) && ToJson(a) == ToJson(b)
    ensures Forget(a) == Forget(b) && SameUpToOrder(a, b)
  {
    JsonRoundTrip(a);
    JsonRoundTrip(b);
    OnlyOrderIsForgotten(a, b);
  }
}

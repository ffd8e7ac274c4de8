/**
 Host object graphs and the value a graph denotes at the boundary.

 `Unfold` is the tree a traversal with an active set and a depth bound sees
 (lib/structured.ts:200-283 and 386-470); `Admissible` says, without any traversal, which graphs
 may cross.  Values that can run code or lie are node kinds the encoders reject.
 */
module HostGraph {
  import opened Wrappers
  import opened StructuredValues
  import opened Bytes
  import opened BoundaryFormat
  import opened BoundaryReader

  /** A JavaScript string is well formed, and then is its sequence of scalar values, or it has a
      lone surrogate somewhere. */
  datatype JsString = WellFormed(text: string) | LoneSurrogate

  type Ref = nat

  /** `Unsupported` is a function, a symbol or a bigint. */
  datatype HostValue =
    | UndefinedValue
    | NullValue
    | BooleanValue(flag: bool)
    | NumberValue(bits: F64)
    | StringValue(text: JsString)
    | Reference(ref: Ref)
    | Unsupported

  /** An own property descriptor: absent, a data property or an accessor. */
  datatype Slot = Absent | Data(value: HostValue) | Accessor

  datatype Property = Property(key: JsString, slot: Slot)

  /** An exotic node is any object that is neither an array nor plain. */
  datatype Node = ArrayNode(slots: seq<Slot>) | ObjectNode(properties: seq<Property>) | ProxyNode | ExoticNode

  type Heap = map<Ref, Node>

  datatype Field = Field(key: string, value: HostValue)

  function NodeAt(heap: Heap, ref: Ref): Node {
    if ref in heap then heap[ref] else ExoticNode
  }

  /** `enumerateDataProperties` does not throw on these properties. */
  predicate Enumerable(properties: seq<Property>) {
    forall i :: 0 <= i < |properties| ==> properties[i].key.WellFormed? && !properties[i].slot.Accessor?
  }

  function DataFields(properties: seq<Property>): seq<Field>
    requires Enumerable(properties)
  {
    if properties == [] then []
    else
      var tail := DataFields(properties[1..]);
      if properties[0].slot.Absent? then tail
      else [Field(properties[0].key.text, properties[0].slot.value)] + tail
  }

  // ------------------------------------------------------------------ the traversal's value

  function Unfold(heap: Heap, value: HostValue, active: set<Ref>, depth: nat): Option<StructuredValue>
    decreases Levels(depth), 0, 0
  {
    if depth > MAX_DEPTH then None
    else
      match value
      case UndefinedValue => Some(Undefined)
      case NullValue => Some(Null)
      case BooleanValue(flag) => Some(Bool(flag))
      case NumberValue(bits) => Some(Number(FromF64(bits)))
      case StringValue(text) => if text.WellFormed? then Some(String(text.text)) else None
      case Unsupported => None
      case Reference(ref) =>
        match NodeAt(heap, ref)
        case ArrayNode(slots) =>
          if |slots| > MAX_ARRAY_LENGTH || ref in active then None
          else
            (match UnfoldSlots(heap, slots, active + {ref}, depth + 1)
             case None => None
             case Some(items) => Some(Array(items)))
        case ObjectNode(properties) =>
          if !Enumerable(properties) || ref in active then None
          else
            (match UnfoldFields(heap, DataFields(properties), active + {ref}, depth + 1)
             case None => None
             case Some(entries) => Some(Object(entries)))
        case _ => None
  }

  function UnfoldSlots(heap: Heap, slots: seq<Slot>, active: set<Ref>, depth: nat): (items: Option<seq<StructuredValue>>)
    ensures items.Some? ==> |items.value| == |slots|
    decreases Levels(depth), 1, |slots|
  {
    if slots == [] then Some([])
    else if slots[0].Accessor? then None
    else
      match if slots[0].Absent? then Some(Hole) else Unfold(heap, slots[0].value, active, depth)
      case None => None
      case Some(item) =>
        match UnfoldSlots(heap, slots[1..], active, depth)
        case None => None
        case Some(items) => Some([item] + items)
  }

  function UnfoldFields(heap: Heap, fields: seq<Field>, active: set<Ref>, depth: nat): (entries: Option<seq<Entry>>)
    ensures entries.Some? ==>
      |entries.value| == |fields| && forall i :: 0 <= i < |fields| ==> entries.value[i].key == fields[i].key
    decreases Levels(depth), 1, |fields|
  {
    if fields == [] then Some([])
    else
      match Unfold(heap, fields[0].value, active, depth)
      case None => None
      case Some(item) =>
        match UnfoldFields(heap, fields[1..], active, depth)
        case None => None
        case Some(entries) => Some([Entry(fields[0].key, item)] + entries)
  }

  // ------------------------------------------------------------------ which graphs may cross

  /** The data values a value refers to directly. */
  function Children(heap: Heap, value: HostValue): seq<HostValue> {
    if !value.Reference? then []
    else
      match NodeAt(heap, value.ref)
      case ArrayNode(slots) => SlotValues(slots)
      case ObjectNode(properties) => if Enumerable(properties) then FieldValues(DataFields(properties)) else []
      case _ => []
  }

  function SlotValues(slots: seq<Slot>): seq<HostValue> {
    if slots == [] then []
    else if slots[0].Data? then [slots[0].value] + SlotValues(slots[1..])
    else SlotValues(slots[1..])
  }

  function FieldValues(fields: seq<Field>): seq<HostValue> {
    if fields == [] then [] else [fields[0].value] + FieldValues(fields[1..])
  }

  /** One value, looked at by itself, may cross. */
  predicate Plain(heap: Heap, value: HostValue) {
    match value
    case StringValue(text) => text.WellFormed?
    case Unsupported => false
    case Reference(ref) =>
      (match NodeAt(heap, ref)
       case ArrayNode(slots) =>
         |slots| <= MAX_ARRAY_LENGTH && forall i :: 0 <= i < |slots| ==> !slots[i].Accessor?
       case ObjectNode(properties) => Enumerable(properties)
       case _ => false)
    case _ => true
  }

  /** Follow child indices from a value. */
  function Descend(heap: Heap, value: HostValue, path: seq<nat>): Option<HostValue>
    decreases |path|
  {
    if path == [] then Some(value)
    else if path[0] >= |Children(heap, value)| then None
    else Descend(heap, Children(heap, value)[path[0]], path[1..])
  }

  /** The value a path leads to is plain, is not nested too deeply, and is an object on none of the
      nodes that enclose it, those on the path and those in `active`. */
  ghost predicate SafePath(heap: Heap, value: HostValue, active: set<Ref>, depth: nat, path: seq<nat>) {
    match Descend(heap, value, path)
    case None => true
    case Some(target) =>
      && Plain(heap, target)
      && depth + |path| <= MAX_DEPTH
      && (target.Reference? ==>
            target.ref !in active && forall i :: 0 <= i < |path| ==> Descend(heap, value, path[..i]) != Some(target))
  }

  /** Every value reachable from `value` may cross: in particular no object contains itself. */
  ghost predicate Admissible(heap: Heap, value: HostValue, active: set<Ref>, depth: nat) {
    forall path :: SafePath(heap, value, active, depth, path)
  }

  /** An object that can be reached from itself. */
  ghost predicate OnCycle(heap: Heap, value: HostValue) {
    value.Reference? && exists loop: seq<nat> :: loop != [] && Descend(heap, value, loop) == Some(value)
  }

  lemma {:induction false} DescendAppend(heap: Heap, value: HostValue, path: seq<nat>, more: seq<nat>)
    ensures Descend(heap, value, path).Some? ==>
      Descend(heap, value, path + more) == Descend(heap, Descend(heap, value, path).value, more)
    decreases |path|
  {
    if path == [] {
      assert path + more == more;
    } else if path[0] < |Children(heap, value)| {
      assert (path + more)[1..] == path[1..] + more;
      DescendAppend(heap, Children(heap, value)[path[0]], path[1..], more);
    }
  }

  /** A graph with a reachable cycle is never admissible. */
  lemma CyclesAreInadmissible(heap: Heap, value: HostValue, active: set<Ref>, depth: nat, path: seq<nat>)
    requires Descend(heap, value, path).Some? && OnCycle(heap, Descend(heap, value, path).value)
    ensures !Admissible(heap, value, active, depth)
  {
    var target := Descend(heap, value, path).value;
    var loop :| loop != [] && Descend(heap, target, loop) == Some(target);
    DescendAppend(heap, value, path, loop);
    var around := path + loop;
    assert around[..|path|] == path;
    assert !SafePath(heap, value, active, depth, around);
  }

  /** Admissibility, one level at a time. */
  lemma AdmissibleByLevel(heap: Heap, value: HostValue, active: set<Ref>, depth: nat)
    ensures Admissible(heap, value, active, depth) <==>
      && Plain(heap, value) && depth <= MAX_DEPTH
      && (value.Reference? ==> value.ref !in active)
      && (value.Reference? ==> forall child :: child in Children(heap, value)
                                               ==> Admissible(heap, child, active + {value.ref}, depth + 1))
  {
    if Admissible(heap, value, active, depth) {
      assert SafePath(heap, value, active, depth, []);
      if value.Reference? {
        forall k | 0 <= k < |Children(heap, value)|
          ensures Admissible(heap, Children(heap, value)[k], active + {value.ref}, depth + 1)
        {
          var child, inside, below := Children(heap, value)[k], active + {value.ref}, depth + 1;
          forall path ensures SafePath(heap, child, inside, below, path) {
            SafeBelow(heap, value, active, depth, k, path);
          }
        }
      }
    }
    if && Plain(heap, value) && depth <= MAX_DEPTH && (value.Reference? ==> value.ref !in active)
       && (value.Reference? ==> forall child :: child in Children(heap, value)
                                               ==> Admissible(heap, child, active + {value.ref}, depth + 1)) {
      forall path ensures SafePath(heap, value, active, depth, path) {
        if path != [] && path[0] < |Children(heap, value)| {
          var child := Children(heap, value)[path[0]];
          assert child in Children(heap, value);
          assert SafePath(heap, child, active + {value.ref}, depth + 1, path[1..]);
          SafeAbove(heap, value, active, depth, path);
        }
      }
    }
  }

  lemma SafeBelow(heap: Heap, value: HostValue, active: set<Ref>, depth: nat, k: nat, path: seq<nat>)
    requires value.Reference? && k < |Children(heap, value)|
    requires SafePath(heap, value, active, depth, [k] + path)
    ensures SafePath(heap, Children(heap, value)[k], active + {value.ref}, depth + 1, path)
  {
    var child, whole := Children(heap, value)[k], [k] + path;
    assert whole[1..] == path;
    if Descend(heap, child, path).Some? {
      var target := Descend(heap, child, path).value;
      assert whole[..0] == [];
      assert Descend(heap, value, whole[..0]) == Some(value);
      forall i | 0 <= i < |path| && target.Reference? ensures Descend(heap, child, path[..i]) != Some(target) {
        assert whole[..i + 1][1..] == path[..i];
        assert Descend(heap, value, whole[..i + 1]) == Descend(heap, child, path[..i]);
      }
    }
  }

  lemma SafeAbove(heap: Heap, value: HostValue, active: set<Ref>, depth: nat, path: seq<nat>)
    requires value.Reference? && path != [] && path[0] < |Children(heap, value)|
    requires SafePath(heap, Children(heap, value)[path[0]], active + {value.ref}, depth + 1, path[1..])
    ensures SafePath(heap, value, active, depth, path)
  {
    var child := Children(heap, value)[path[0]];
    if Descend(heap, value, path).Some? {
      var target := Descend(heap, value, path).value;
      forall i | 0 <= i < |path| && target.Reference? ensures Descend(heap, value, path[..i]) != Some(target) {
        if i == 0 {
          assert path[..0] == [];
        } else {
          assert path[..i][1..] == path[1..][..i - 1];
          assert Descend(heap, value, path[..i]) == Descend(heap, child, path[1..][..i - 1]);
        }
      }
    }
  }

  /** The traversal succeeds on exactly the admissible graphs. */
  lemma {:induction false} UnfoldsExactlyAdmissible(heap: Heap, value: HostValue, active: set<Ref>, depth: nat)
    ensures Unfold(heap, value, active, depth).Some? <==> Admissible(heap, value, active, depth)
    decreases Levels(depth), 0, 0
  {
    AdmissibleByLevel(heap, value, active, depth);
    if depth <= MAX_DEPTH && value.Reference? && value.ref !in active {
      match NodeAt(heap, value.ref)
      case ArrayNode(slots) =>
        SlotsUnfoldExactlyAdmissible(heap, slots, active + {value.ref}, depth + 1);
        assert Children(heap, value) == SlotValues(slots);
      case ObjectNode(properties) =>
        if Enumerable(properties) {
          FieldsUnfoldExactlyAdmissible(heap, DataFields(properties), active + {value.ref}, depth + 1);
          assert Children(heap, value) == FieldValues(DataFields(properties));
        }
      case _ =>
    }
  }

  lemma {:induction false} SlotsUnfoldExactlyAdmissible(heap: Heap, slots: seq<Slot>, active: set<Ref>, depth: nat)
    ensures UnfoldSlots(heap, slots, active, depth).Some? <==>
      && (forall i :: 0 <= i < |slots| ==> !slots[i].Accessor?)
      && (forall child :: child in SlotValues(slots) ==> Admissible(heap, child, active, depth))
    decreases Levels(depth), 1, |slots|
  {
    if slots != [] {
      SlotsUnfoldExactlyAdmissible(heap, slots[1..], active, depth);
      assert slots == [slots[0]] + slots[1..];
      if slots[0].Data? {
        UnfoldsExactlyAdmissible(heap, slots[0].value, active, depth);
      }
    }
  }

  lemma {:induction false} FieldsUnfoldExactlyAdmissible(heap: Heap, fields: seq<Field>, active: set<Ref>, depth: nat)
    ensures UnfoldFields(heap, fields, active, depth).Some? <==>
      forall child :: child in FieldValues(fields) ==> Admissible(heap, child, active, depth)
    decreases Levels(depth), 1, |fields|
  {
    if fields != [] {
      FieldsUnfoldExactlyAdmissible(heap, fields[1..], active, depth);
      UnfoldsExactlyAdmissible(heap, fields[0].value, active, depth);
    }
  }
}

/**
 The two encoders of lib/structured.ts, as they run: `WriteStructured` prints into a growable
 buffer, `EncodeStructured` builds a tagged tree; both keep the set of objects they are inside of
 and put it back however they leave.
 */
module HostEncoders {
  import opened Wrappers
  import opened StructuredValues
  import opened Bytes
  import opened BoundaryFormat
  import opened BoundaryReader
  import opened BinaryWriter
  import opened TaggedTree
  import opened HostGraph
  import opened HostContent

  /** The `traversal` argument. */
  class Traversal {
    var active: set<Ref>

    constructor ()
      ensures active == {}
    {
      active := {};
    }

    /** `enterStructuredTraversal` on an object; `false` when it throws. */
    method Enter(ref: Ref) returns (entered: bool)
      modifies this
      ensures entered <==> ref !in old(active)
      ensures active == if entered then old(active) + {ref} else old(active)
    {
      if ref in active {
        return false;
      }
      active := active + {ref};
      return true;
    }

    method Leave(ref: Ref)
      modifies this
      ensures active == old(active) - {ref}
    {
      active := active - {ref};
    }
  }

  /** `enumerateDataProperties`; `None` when it throws. */
  method EnumerateDataProperties(properties: seq<Property>) returns (fields: Option<seq<HostGraph.Field>>)
    ensures fields == if Enumerable(properties) then Some(DataFields(properties)) else None
  {
    var entries: seq<HostGraph.Field> := [];
    assert properties[0..] == properties;
    for i := 0 to |properties|
      invariant Enumerable(properties[..i])
      invariant Enumerable(properties[i..]) ==> entries + DataFields(properties[i..]) == DataFields(properties)
    {
      var property := properties[i];
      assert properties[i..] == [property] + properties[i + 1..];
      assert properties[..i + 1] == properties[..i] + [property];
      if property.key.LoneSurrogate? || property.slot.Accessor? {
        return None;
      }
      if property.slot.Absent? {
        continue;
      }
      entries := entries + [HostGraph.Field(property.key.text, property.slot.value)];
    }
    assert properties[..|properties|] == properties && properties[|properties|..] == [];
    assert entries + [] == entries;
    return Some(entries);
  }

  // ------------------------------------------------------------------ the binary printer

  /** Prints exactly the encoding of the value the graph denotes, which has the graph's content, throws
      exactly when it denotes none, and restores the active set either way. */
  method WriteStructured(heap: Heap, value: HostValue, writer: Writer, traversal: Traversal, depth: nat)
    returns (thrown: bool)
    requires writer.Valid()
    modifies writer, writer.buffer, traversal
    ensures writer.Valid() && (writer.buffer == old(writer.buffer) || fresh(writer.buffer))
    ensures traversal.active == old(traversal.active)
    ensures thrown <==> Unfold(heap, value, old(traversal.active), depth).None?
    ensures !thrown ==>
      writer.Contents() == old(writer.Contents()) + Encode(Unfold(heap, value, old(traversal.active), depth).value)
    ensures !thrown ==> Shows(heap, value, Unfold(heap, value, old(traversal.active), depth).value)
    decreases Levels(depth), 0
  {
    hide Shows;
    WhatIsWrittenIsShown(heap, value, traversal.active, depth);
    if depth > MAX_DEPTH {
      return true;
    }
    match value {
      case UndefinedValue => writer.WriteU8(TAG_UNDEFINED); return false;
      case NullValue => writer.WriteU8(TAG_NULL); return false;
      case BooleanValue(flag) => writer.WriteU8(if flag then TAG_TRUE else TAG_FALSE); return false;
      case NumberValue(bits) =>
        WriteNumber(bits, writer);
        return false;
      case StringValue(text) =>
        writer.WriteU8(TAG_STRING);
        if text.LoneSurrogate? {
          return true;
        }
        writer.WriteString(text.text);
        return false;
      case Unsupported => return true;
      case Reference(ref) =>
        match NodeAt(heap, ref) {
          case ArrayNode(slots) => thrown := WriteArray(heap, ref, slots, writer, traversal, depth);
          case ObjectNode(properties) => thrown := WriteObject(heap, ref, properties, writer, traversal, depth);
          case _ => return true;
        }
    }
  }

  method WriteNumber(bits: F64, writer: Writer)
    requires writer.Valid()
    modifies writer, writer.buffer
    ensures writer.Valid() && (writer.buffer == old(writer.buffer) || fresh(writer.buffer))
    ensures writer.Contents() == old(writer.Contents()) + EncodeNumber(FromF64(bits))
  {
    hide U64;
    if IsNaN(bits) {
      writer.WriteU8(TAG_NAN);
    } else if bits == SIGN_BIT {
      writer.WriteU8(TAG_NEG_ZERO);
    } else if bits == POSITIVE_INFINITY {
      writer.WriteU8(TAG_INFINITY);
    } else if bits == NEGATIVE_INFINITY {
      writer.WriteU8(TAG_NEG_INFINITY);
    } else {
      writer.WriteU8(TAG_FINITE);
      writer.WriteF64(bits);
    }
  }

  method WriteArray(heap: Heap, ref: Ref, slots: seq<Slot>, writer: Writer, traversal: Traversal, depth: nat)
    returns (thrown: bool)
    requires writer.Valid() && depth <= MAX_DEPTH && NodeAt(heap, ref) == ArrayNode(slots)
    modifies writer, writer.buffer, traversal
    ensures writer.Valid() && (writer.buffer == old(writer.buffer) || fresh(writer.buffer))
    ensures traversal.active == old(traversal.active)
    ensures thrown <==> Unfold(heap, Reference(ref), old(traversal.active), depth).None?
    ensures !thrown ==>
      writer.Contents() == old(writer.Contents()) + Encode(Unfold(heap, Reference(ref), old(traversal.active), depth).value)
    decreases Levels(depth + 1), 2
  {
    hide UnfoldSlots, EncodeItems;
    if |slots| > MAX_ARRAY_LENGTH {
      return true;
    }
    writer.WriteU8(TAG_ARRAY);
    writer.WriteU32(|slots|);
    var entered := traversal.Enter(ref);
    if !entered {
      return true;
    }
    thrown := WriteSlots(heap, slots, writer, traversal, depth + 1);
    traversal.Leave(ref);
  }

  /** The slots of an array, in order. */
  method WriteSlots(heap: Heap, slots: seq<Slot>, writer: Writer, traversal: Traversal, depth: nat)
    returns (thrown: bool)
    requires writer.Valid()
    modifies writer, writer.buffer, traversal
    ensures writer.Valid() && (writer.buffer == old(writer.buffer) || fresh(writer.buffer))
    ensures traversal.active == old(traversal.active)
    ensures thrown <==> UnfoldSlots(heap, slots, old(traversal.active), depth).None?
    ensures !thrown ==>
      writer.Contents() == old(writer.Contents()) + EncodeItems(UnfoldSlots(heap, slots, old(traversal.active), depth).value)
    decreases Levels(depth), 1
  {
    hide UnfoldSlots, EncodeItems, Encode, Unfold;
    ghost var active := traversal.active;
    ghost var whole := UnfoldSlots(heap, slots, active, depth);
    ghost var start := writer.Contents();
    UnfoldNoSlots(heap, active, depth);
    HoleByte();
    assert slots[0..] == slots;
    for index := 0 to |slots|
      invariant writer.Valid() && (writer.buffer == old(writer.buffer) || fresh(writer.buffer))
      invariant traversal.active == active
      invariant whole.None? <==> UnfoldSlots(heap, slots[index..], active, depth).None?
      invariant whole.Some? ==>
        writer.Contents() + EncodeItems(UnfoldSlots(heap, slots[index..], active, depth).value)
        == start + EncodeItems(whole.value)
    {
      UnfoldNextSlot(heap, slots, index, active, depth);
      ghost var before := writer.Contents();
      ghost var later := UnfoldSlots(heap, slots[index + 1..], active, depth);
      match slots[index] {
        case Absent =>
          writer.WriteU8(TAG_HOLE);
          if later.Some? {
            assert before + (Encode(Hole) + EncodeItems(later.value)) == (before + Encode(Hole)) + EncodeItems(later.value);
          }
        case Accessor => return true;
        case Data(value) =>
          thrown := WriteStructured(heap, value, writer, traversal, depth);
          if thrown {
            return;
          }
          if later.Some? {
            ghost var item := Encode(Unfold(heap, value, active, depth).value);
            assert before + (item + EncodeItems(later.value)) == (before + item) + EncodeItems(later.value);
          }
      }
    }
    assert slots[|slots|..] == [];
    return false;
  }

  lemma HoleByte()
    ensures Encode(Hole) == [TAG_HOLE]
  {
  }

  lemma UnfoldNoSlots(heap: Heap, active: set<Ref>, depth: nat)
    ensures UnfoldSlots(heap, [], active, depth) == Some([]) && EncodeItems([]) == [] && TagItems([]) == []
    ensures UnfoldFields(heap, [], active, depth) == Some([]) && EncodeEntries([]) == [] && TagEntries([]) == []
  {
  }

  lemma UnfoldNextSlot(heap: Heap, slots: seq<Slot>, index: nat, active: set<Ref>, depth: nat)
    requires index < |slots|
    ensures var now, later := UnfoldSlots(heap, slots[index..], active, depth), UnfoldSlots(heap, slots[index + 1..], active, depth);
      var item := if slots[index].Absent? then Some(Hole)
                  else if slots[index].Accessor? then None
                  else Unfold(heap, slots[index].value, active, depth);
      && (now.Some? <==> item.Some? && later.Some?)
      && (now.Some? ==> now.value == [item.value] + later.value
                        && EncodeItems(now.value) == Encode(item.value) + EncodeItems(later.value)
                        && TagItems(now.value) == [Tag(item.value)] + TagItems(later.value))
  {
    assert slots[index..][1..] == slots[index + 1..];
    var now, later := UnfoldSlots(heap, slots[index..], active, depth), UnfoldSlots(heap, slots[index + 1..], active, depth);
    if now.Some? {
      assert now.value[1..] == later.value;
    }
  }

  lemma UnfoldNextField(heap: Heap, fields: seq<HostGraph.Field>, index: nat, active: set<Ref>, depth: nat)
    requires index < |fields|
    ensures var now, later := UnfoldFields(heap, fields[index..], active, depth), UnfoldFields(heap, fields[index + 1..], active, depth);
      var item := Unfold(heap, fields[index].value, active, depth);
      && (now.Some? <==> item.Some? && later.Some?)
      && (now.Some? ==>
            && now.value == [Entry(fields[index].key, item.value)] + later.value
            && EncodeEntries(now.value) == EncodeString(fields[index].key) + Encode(item.value) + EncodeEntries(later.value)
            && TagEntries(now.value) == [Member(fields[index].key, Tag(item.value))] + TagEntries(later.value))
  {
    assert fields[index..][1..] == fields[index + 1..];
    var now, later := UnfoldFields(heap, fields[index..], active, depth), UnfoldFields(heap, fields[index + 1..], active, depth);
    if now.Some? {
      assert now.value[1..] == later.value;
    }
  }

  method WriteObject(heap: Heap, ref: Ref, properties: seq<Property>, writer: Writer, traversal: Traversal, depth: nat)
    returns (thrown: bool)
    requires writer.Valid() && depth <= MAX_DEPTH && NodeAt(heap, ref) == ObjectNode(properties)
    modifies writer, writer.buffer, traversal
    ensures writer.Valid() && (writer.buffer == old(writer.buffer) || fresh(writer.buffer))
    ensures traversal.active == old(traversal.active)
    ensures thrown <==> Unfold(heap, Reference(ref), old(traversal.active), depth).None?
    ensures !thrown ==>
      writer.Contents() == old(writer.Contents()) + Encode(Unfold(heap, Reference(ref), old(traversal.active), depth).value)
    decreases Levels(depth + 1), 2
  {
    hide UnfoldFields, EncodeEntries;
    writer.WriteU8(TAG_OBJECT);
    var entries := EnumerateDataProperties(properties);
    if entries.None? {
      return true;
    }
    writer.WriteU32(|entries.value|);
    var entered := traversal.Enter(ref);
    if !entered {
      return true;
    }
    thrown := WriteFields(heap, entries.value, writer, traversal, depth + 1);
    traversal.Leave(ref);
  }

  /** The entries of an object, or of the inputs of a start request. */
  method WriteFields(heap: Heap, fields: seq<HostGraph.Field>, writer: Writer, traversal: Traversal, depth: nat)
    returns (thrown: bool)
    requires writer.Valid()
    modifies writer, writer.buffer, traversal
    ensures writer.Valid() && (writer.buffer == old(writer.buffer) || fresh(writer.buffer))
    ensures traversal.active == old(traversal.active)
    ensures thrown <==> UnfoldFields(heap, fields, old(traversal.active), depth).None?
    ensures !thrown ==>
      writer.Contents() == old(writer.Contents())
                           + EncodeEntries(UnfoldFields(heap, fields, old(traversal.active), depth).value)
    decreases Levels(depth), 1
  {
    hide UnfoldFields, EncodeEntries, EncodeString, Encode, Unfold;
    ghost var active := traversal.active;
    ghost var whole := UnfoldFields(heap, fields, active, depth);
    ghost var start := writer.Contents();
    UnfoldNoSlots(heap, active, depth);
    assert fields[0..] == fields;
    for index := 0 to |fields|
      invariant writer.Valid() && (writer.buffer == old(writer.buffer) || fresh(writer.buffer))
      invariant traversal.active == active
      invariant whole.None? <==> UnfoldFields(heap, fields[index..], active, depth).None?
      invariant whole.Some? ==>
        writer.Contents() + EncodeEntries(UnfoldFields(heap, fields[index..], active, depth).value)
        == start + EncodeEntries(whole.value)
    {
      UnfoldNextField(heap, fields, index, active, depth);
      ghost var before := writer.Contents();
      writer.WriteString(fields[index].key);
      thrown := WriteStructured(heap, fields[index].value, writer, traversal, depth);
      if thrown {
        return;
      }
      ghost var later := UnfoldFields(heap, fields[index + 1..], active, depth);
      if later.Some? {
        ghost var key, item := EncodeString(fields[index].key), Encode(Unfold(heap, fields[index].value, active, depth).value);
        assert before + (key + item + EncodeEntries(later.value)) == ((before + key) + item) + EncodeEntries(later.value);
      }
    }
    assert fields[|fields|..] == [];
    return false;
  }

  // ------------------------------------------------------------------ the tree builder

  /** Builds exactly the tagged tree of the value the graph denotes, which is decoded to what the graph
      shows, throws exactly when it denotes none, and restores the active set either way. */
  method EncodeStructured(heap: Heap, value: HostValue, traversal: Traversal, depth: nat) returns (tree: Option<Json>)
    modifies traversal
    ensures traversal.active == old(traversal.active)
    ensures match Unfold(heap, value, old(traversal.active), depth)
            case None => tree.None?
            case Some(unfolded) => tree == Some(Tag(unfolded))
    ensures tree.Some? && old(traversal.active) == {} ==>
      Untag(tree.value, depth).Some? && Shows(heap, value, Untag(tree.value, depth).value)
    decreases Levels(depth), 0
  {
    hide Shows, Untag;
    WhatIsWrittenIsShown(heap, value, traversal.active, depth);
    if depth > MAX_DEPTH {
      return None;
    }
    match value {
      case UndefinedValue => return Some(JString("Undefined"));
      case NullValue => return Some(JString("Null"));
      case BooleanValue(flag) => return Some(Single("Bool", JBool(flag)));
      case NumberValue(bits) => return Some(Single("Number", TagNumber(FromF64(bits))));
      case StringValue(text) =>
        if text.LoneSurrogate? {
          return None;
        }
        return Some(Single("String", JString(text.text)));
      case Unsupported => return None;
      case Reference(ref) =>
        match NodeAt(heap, ref) {
          case ArrayNode(slots) => tree := EncodeStructuredArray(heap, ref, slots, traversal, depth);
          case ObjectNode(properties) => tree := EncodeStructuredObject(heap, ref, properties, traversal, depth);
          case _ => return None;
        }
    }
  }

  method EncodeStructuredArray(heap: Heap, ref: Ref, slots: seq<Slot>, traversal: Traversal, depth: nat)
    returns (tree: Option<Json>)
    requires depth <= MAX_DEPTH && NodeAt(heap, ref) == ArrayNode(slots)
    modifies traversal
    ensures traversal.active == old(traversal.active)
    ensures match Unfold(heap, Reference(ref), old(traversal.active), depth)
            case None => tree.None?
            case Some(unfolded) => tree == Some(Tag(unfolded))
    decreases Levels(depth + 1), 2
  {
    hide UnfoldSlots, TagItems;
    if |slots| > MAX_ARRAY_LENGTH {
      return None;
    }
    var entered := traversal.Enter(ref);
    if !entered {
      return None;
    }
    var entries := EncodeSlots(heap, slots, traversal, depth + 1);
    traversal.Leave(ref);
    return if entries.Some? then Some(Single("Array", JArray(entries.value))) else None;
  }

  method EncodeSlots(heap: Heap, slots: seq<Slot>, traversal: Traversal, depth: nat) returns (trees: Option<seq<Json>>)
    modifies traversal
    ensures traversal.active == old(traversal.active)
    ensures match UnfoldSlots(heap, slots, old(traversal.active), depth)
            case None => trees.None?
            case Some(items) => trees == Some(TagItems(items))
    decreases Levels(depth), 1
  {
    hide UnfoldSlots, TagItems, Unfold;
    ghost var active := traversal.active;
    ghost var whole := UnfoldSlots(heap, slots, active, depth);
    UnfoldNoSlots(heap, active, depth);
    assert slots[0..] == slots;
    var entries: seq<Json> := [];
    for index := 0 to |slots|
      invariant traversal.active == active
      invariant whole.None? <==> UnfoldSlots(heap, slots[index..], active, depth).None?
      invariant whole.Some? ==>
        entries + TagItems(UnfoldSlots(heap, slots[index..], active, depth).value) == TagItems(whole.value)
    {
      UnfoldNextSlot(heap, slots, index, active, depth);
      match slots[index] {
        case Absent => entries := entries + [JString("Hole")];
        case Accessor => return None;
        case Data(value) =>
          var item := EncodeStructured(heap, value, traversal, depth);
          if item.None? {
            return None;
          }
          entries := entries + [item.value];
      }
    }
    assert slots[|slots|..] == [] && entries + [] == entries;
    return Some(entries);
  }

  method EncodeStructuredObject(heap: Heap, ref: Ref, properties: seq<Property>, traversal: Traversal, depth: nat)
    returns (tree: Option<Json>)
    requires depth <= MAX_DEPTH && NodeAt(heap, ref) == ObjectNode(properties)
    modifies traversal
    ensures traversal.active == old(traversal.active)
    ensures match Unfold(heap, Reference(ref), old(traversal.active), depth)
            case None => tree.None?
            case Some(unfolded) => tree == Some(Tag(unfolded))
    decreases Levels(depth + 1), 2
  {
    hide UnfoldFields, TagEntries;
    var entered := traversal.Enter(ref);
    if !entered {
      return None;
    }
    var fields := EnumerateDataProperties(properties);
    if fields.None? {
      traversal.Leave(ref);
      return None;
    }
    var members := EncodeFields(heap, fields.value, traversal, depth + 1);
    traversal.Leave(ref);
    return if members.Some? then Some(Single("Object", JObject(members.value))) else None;
  }

  method EncodeFields(heap: Heap, fields: seq<HostGraph.Field>, traversal: Traversal, depth: nat)
    returns (trees: Option<seq<Member>>)
    modifies traversal
    ensures traversal.active == old(traversal.active)
    ensures match UnfoldFields(heap, fields, old(traversal.active), depth)
            case None => trees.None?
            case Some(entries) => trees == Some(TagEntries(entries))
    decreases Levels(depth), 1
  {
    hide UnfoldFields, TagEntries, Unfold;
    ghost var active := traversal.active;
    ghost var whole := UnfoldFields(heap, fields, active, depth);
    UnfoldNoSlots(heap, active, depth);
    assert fields[0..] == fields;
    var members: seq<Member> := [];
    for index := 0 to |fields|
      invariant traversal.active == active
      invariant whole.None? <==> UnfoldFields(heap, fields[index..], active, depth).None?
      invariant whole.Some? ==>
        members + TagEntries(UnfoldFields(heap, fields[index..], active, depth).value) == TagEntries(whole.value)
    {
      UnfoldNextField(heap, fields, index, active, depth);
      var item := EncodeStructured(heap, fields[index].value, traversal, depth);
      if item.None? {
        return None;
      }
      members := members + [Member(fields[index].key, item.value)];
    }
    assert fields[|fields|..] == [] && members + [] == members;
    return Some(members);
  }
}

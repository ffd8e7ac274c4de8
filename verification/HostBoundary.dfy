/** From a host graph to bytes or a tree and back: what survives the crossing, and what does not. */
module HostBoundary {
  import opened Wrappers
  import opened StructuredValues
  import opened Bytes
  import opened BoundaryFormat
  import opened BoundaryReader
  import opened TaggedTree
  import opened HostGraph

  /** The own keys of a plain object are distinct. */
  ghost predicate UniqueKeys(heap: Heap) {
    forall ref :: ref in heap && heap[ref].ObjectNode? ==> PropertyKeysDiffer(heap[ref].properties)
  }

  predicate PropertyKeysDiffer(properties: seq<Property>) {
    forall i, k :: 0 <= i < k < |properties| ==> properties[i].key != properties[k].key
  }

  /** The lengths a 32-bit field can hold. */
  predicate Sized(value: StructuredValue) {
    match value
    case String(text) => FitsString(text)
    case Array(items) => forall i :: 0 <= i < |items| ==> Sized(items[i])
    case Object(entries) =>
      && |entries| < U32_LIMIT
      && forall i :: 0 <= i < |entries| ==> FitsString(entries[i].key) && Sized(entries[i].value)
    case _ => true
  }

  /** No array at the deepest permitted level has a hole. */
  predicate NoDeepHole(value: StructuredValue, depth: nat)
    decreases value
  {
    match value
    case Array(items) =>
      && (depth >= MAX_DEPTH ==> forall i :: 0 <= i < |items| ==> !items[i].Hole?)
      && forall i :: 0 <= i < |items| ==> NoDeepHole(items[i], depth + 1)
    case Object(entries) => forall i :: 0 <= i < |entries| ==> NoDeepHole(entries[i].value, depth + 1)
    case _ => true
  }

  // ------------------------------------------------------------------ what a graph denotes

  /** Every value a graph denotes is one the host can hold. */
  lemma {:induction false} DenotedIsHostShaped(heap: Heap, value: HostValue, active: set<Ref>, depth: nat)
    requires Unfold(heap, value, active, depth).Some?
    ensures HostShaped(Unfold(heap, value, active, depth).value, depth)
    decreases Levels(depth), 0, 0
  {
    match value
    case NumberValue(bits) => NumberConversionsInvert(bits, NaN);
    case Reference(ref) =>
      match NodeAt(heap, ref) {
        case ArrayNode(slots) => DenotedSlotsAreHostShaped(heap, slots, active + {ref}, depth + 1);
        case ObjectNode(properties) =>
          DenotedFieldsAreHostShaped(heap, DataFields(properties), active + {ref}, depth + 1);
        case _ =>
      }
    case _ =>
  }

  lemma {:induction false} DenotedSlotsAreHostShaped(heap: Heap, slots: seq<Slot>, active: set<Ref>, depth: nat)
    requires UnfoldSlots(heap, slots, active, depth).Some?
    ensures forall i :: 0 <= i < |slots| ==>
      var item := UnfoldSlots(heap, slots, active, depth).value[i]; item.Hole? || HostShaped(item, depth)
    decreases Levels(depth), 1, |slots|
  {
    if slots != [] {
      if slots[0].Data? {
        DenotedIsHostShaped(heap, slots[0].value, active, depth);
      }
      DenotedSlotsAreHostShaped(heap, slots[1..], active, depth);
    }
  }

  lemma {:induction false} DenotedFieldsAreHostShaped(heap: Heap, fields: seq<HostGraph.Field>, active: set<Ref>, depth: nat)
    requires UnfoldFields(heap, fields, active, depth).Some?
    ensures forall i :: 0 <= i < |fields| ==> HostShaped(UnfoldFields(heap, fields, active, depth).value[i].value, depth)
    decreases Levels(depth), 1, |fields|
  {
    if fields != [] {
      DenotedIsHostShaped(heap, fields[0].value, active, depth);
      DenotedFieldsAreHostShaped(heap, fields[1..], active, depth);
    }
  }

  /** A shared object denotes the same value wherever, and however deep, it occurs. */
  lemma {:induction false} SharingIsInvisible(heap: Heap, value: HostValue, active: set<Ref>, depth: nat,
                                              active': set<Ref>, depth': nat)
    requires Unfold(heap, value, active, depth).Some? && Unfold(heap, value, active', depth').Some?
    ensures Unfold(heap, value, active, depth) == Unfold(heap, value, active', depth')
    decreases Levels(depth), 0, 0
  {
    if value.Reference? {
      match NodeAt(heap, value.ref)
      case ArrayNode(slots) =>
        SlotSharingIsInvisible(heap, slots, active + {value.ref}, depth + 1, active' + {value.ref}, depth' + 1);
      case ObjectNode(properties) =>
        FieldSharingIsInvisible(heap, DataFields(properties), active + {value.ref}, depth + 1,
                                active' + {value.ref}, depth' + 1);
      case _ =>
    }
  }

  lemma {:induction false} SlotSharingIsInvisible(heap: Heap, slots: seq<Slot>, active: set<Ref>, depth: nat,
                                                  active': set<Ref>, depth': nat)
    requires UnfoldSlots(heap, slots, active, depth).Some? && UnfoldSlots(heap, slots, active', depth').Some?
    ensures UnfoldSlots(heap, slots, active, depth) == UnfoldSlots(heap, slots, active', depth')
    decreases Levels(depth), 1, |slots|
  {
    if slots != [] {
      if slots[0].Data? {
        SharingIsInvisible(heap, slots[0].value, active, depth, active', depth');
      }
      SlotSharingIsInvisible(heap, slots[1..], active, depth, active', depth');
    }
  }

  lemma {:induction false} FieldSharingIsInvisible(heap: Heap, fields: seq<HostGraph.Field>, active: set<Ref>,
                                                   depth: nat, active': set<Ref>, depth': nat)
    requires UnfoldFields(heap, fields, active, depth).Some? && UnfoldFields(heap, fields, active', depth').Some?
    ensures UnfoldFields(heap, fields, active, depth) == UnfoldFields(heap, fields, active', depth')
    decreases Levels(depth), 1, |fields|
  {
    if fields != [] {
      SharingIsInvisible(heap, fields[0].value, active, depth, active', depth');
      FieldSharingIsInvisible(heap, fields[1..], active, depth, active', depth');
    }
  }

  predicate HasKey(properties: seq<Property>, key: string) {
    exists k :: 0 <= k < |properties| && properties[k].key == WellFormed(key)
  }

  predicate DistinctFields(fields: seq<HostGraph.Field>) {
    forall i, k :: 0 <= i < k < |fields| ==> fields[i].key != fields[k].key
  }

  lemma {:induction false} FieldKeysDiffer(properties: seq<Property>)
    requires Enumerable(properties) && PropertyKeysDiffer(properties)
    ensures DistinctFields(DataFields(properties))
    ensures forall i :: 0 <= i < |DataFields(properties)| ==> HasKey(properties, DataFields(properties)[i].key)
  {
    if properties != [] {
      var tail, fields := DataFields(properties[1..]), DataFields(properties);
      FieldKeysDiffer(properties[1..]);
      forall i | 0 <= i < |tail|
        ensures HasKey(properties, tail[i].key) && properties[0].key != WellFormed(tail[i].key)
      {
        var k :| 0 <= k < |properties[1..]| && properties[1..][k].key == WellFormed(tail[i].key);
        assert properties[k + 1].key == WellFormed(tail[i].key);
      }
      if properties[0].slot.Data? {
        assert fields == [fields[0]] + tail && HasKey(properties, fields[0].key);
      }
    }
  }

  lemma {:induction false} DenotedHasDistinctKeys(heap: Heap, value: HostValue, active: set<Ref>, depth: nat)
    requires UniqueKeys(heap) && Unfold(heap, value, active, depth).Some?
    ensures DistinctKeys(Unfold(heap, value, active, depth).value)
    decreases Levels(depth), 0, 0
  {
    hide HasKey, PropertyKeysDiffer;
    if value.Reference? {
      match NodeAt(heap, value.ref)
      case ArrayNode(slots) => DenotedSlotsHaveDistinctKeys(heap, slots, active + {value.ref}, depth + 1);
      case ObjectNode(properties) =>
        FieldKeysDiffer(properties);
        DenotedFieldsHaveDistinctKeys(heap, DataFields(properties), active + {value.ref}, depth + 1);
        assert KeysDiffer(UnfoldFields(heap, DataFields(properties), active + {value.ref}, depth + 1).value);
      case _ =>
    }
  }

  lemma {:induction false} DenotedSlotsHaveDistinctKeys(heap: Heap, slots: seq<Slot>, active: set<Ref>, depth: nat)
    requires UniqueKeys(heap) && UnfoldSlots(heap, slots, active, depth).Some?
    ensures forall i :: 0 <= i < |slots| ==> DistinctKeys(UnfoldSlots(heap, slots, active, depth).value[i])
    decreases Levels(depth), 1, |slots|
  {
    if slots != [] {
      if slots[0].Data? {
        DenotedHasDistinctKeys(heap, slots[0].value, active, depth);
      }
      DenotedSlotsHaveDistinctKeys(heap, slots[1..], active, depth);
    }
  }

  lemma {:induction false} DenotedFieldsHaveDistinctKeys(heap: Heap, fields: seq<HostGraph.Field>, active: set<Ref>, depth: nat)
    requires UniqueKeys(heap) && UnfoldFields(heap, fields, active, depth).Some?
    ensures forall i :: 0 <= i < |fields| ==> DistinctKeys(UnfoldFields(heap, fields, active, depth).value[i].value)
    decreases Levels(depth), 1, |fields|
  {
    if fields != [] {
      DenotedHasDistinctKeys(heap, fields[0].value, active, depth);
      DenotedFieldsHaveDistinctKeys(heap, fields[1..], active, depth);
    }
  }

  // ------------------------------------------------------------------ the tree form

  /** Every graph the slower encoder accepts comes back from the tree as the value it denotes. */
  lemma TreeRoundTrip(heap: Heap, value: HostValue, depth: nat)
    requires Unfold(heap, value, {}, depth).Some?
    ensures Untag(Tag(Unfold(heap, value, {}, depth).value), depth) == Unfold(heap, value, {}, depth)
  {
    DenotedIsHostShaped(heap, value, {}, depth);
    UntagAfterTag(Unfold(heap, value, {}, depth).value, depth);
  }

  // ------------------------------------------------------------------ the binary form

  /** What the reader builds from the front of `input`. */
  function ReadValue(input: seq<byte>, depth: nat): Parsed<StructuredValue> {
    match Parse(input, depth)
    case Read(value, rest) => Read(Collapse(value), rest)
    case Reject => Reject
  }

  /** A host value within the size limits fits the reader's exactly when no array at the deepest
      level has a hole: the writer does not count a hole as a level, the reader does. */
  lemma {:induction false} FitsWithoutDeepHoles(value: StructuredValue, depth: nat)
    requires Sized(value) && (HostShaped(value, depth) || (value.Hole? && depth > 0))
    ensures !value.Hole? ==> (Fits(value, depth) <==> NoDeepHole(value, depth))
    decreases value
  {
    match value
    case Array(items) =>
      forall i | 0 <= i < |items|
        ensures Fits(items[i], depth + 1) <==> NoDeepHole(items[i], depth + 1) && (items[i].Hole? ==> depth < MAX_DEPTH)
      {
        FitsWithoutDeepHoles(items[i], depth + 1);
      }
    case Object(entries) =>
      forall i | 0 <= i < |entries|
        ensures Fits(entries[i].value, depth + 1) <==> NoDeepHole(entries[i].value, depth + 1)
      {
        FitsWithoutDeepHoles(entries[i].value, depth + 1);
      }
    case _ =>
  }

  /** The reader rejects the encoding of a value that is too deep for it, whatever follows. */
  lemma {:induction false} TooDeepIsRejected(value: StructuredValue, depth: nat, rest: seq<byte>)
    requires Sized(value) && ArraysFit(value) && !Fits(value, depth)
    ensures Parse(Encode(value) + rest, depth).Reject?
    decreases value, 1
  {
    hide ParseU32, U32, ParseItems, EncodeItems, ParseEntries, EncodeEntries, ParseString, EncodeString;
    var input := Encode(value) + rest;
    if depth <= MAX_DEPTH {
      match value
      case Array(items) =>
        assert input[1..] == U32(|items|) + (EncodeItems(items) + rest);
        ParseU32Written(|items|, EncodeItems(items) + rest);
        TooDeepItemsAreRejected(items, depth + 1, rest);
      case Object(entries) =>
        assert input[1..] == U32(|entries|) + (EncodeEntries(entries) + rest);
        ParseU32Written(|entries|, EncodeEntries(entries) + rest);
        TooDeepEntriesAreRejected(entries, depth + 1, rest);
      case _ =>
    }
  }

  predicate ArraysFit(value: StructuredValue) {
    match value
    case Array(items) => |items| <= MAX_ARRAY_LENGTH && forall i :: 0 <= i < |items| ==> ArraysFit(items[i])
    case Object(entries) => forall i :: 0 <= i < |entries| ==> ArraysFit(entries[i].value)
    case _ => true
  }

  lemma {:induction false} TooDeepItemsAreRejected(items: seq<StructuredValue>, depth: nat, rest: seq<byte>)
    requires forall i :: 0 <= i < |items| ==> Sized(items[i]) && ArraysFit(items[i])
    requires exists i :: 0 <= i < |items| && !Fits(items[i], depth)
    ensures ParseItems(EncodeItems(items) + rest, |items|, depth).Reject?
    decreases items, 0
  {
    hide Parse, Encode, Fits, Sized, ArraysFit;
    var tail := EncodeItems(items[1..]) + rest;
    assert EncodeItems(items) + rest == Encode(items[0]) + tail;
    if Fits(items[0], depth) {
      ReadBack(items[0], depth, tail);
      var i :| 0 <= i < |items| && !Fits(items[i], depth);
      assert items[1..][i - 1] == items[i];
      TooDeepItemsAreRejected(items[1..], depth, rest);
    } else {
      TooDeepIsRejected(items[0], depth, tail);
    }
  }

  lemma {:induction false} TooDeepEntriesAreRejected(entries: seq<Entry>, depth: nat, rest: seq<byte>)
    requires forall i :: 0 <= i < |entries| ==> FitsString(entries[i].key) && Sized(entries[i].value) && ArraysFit(entries[i].value)
    requires exists i :: 0 <= i < |entries| && !Fits(entries[i].value, depth)
    ensures ParseEntries(EncodeEntries(entries) + rest, |entries|, depth).Reject?
    decreases entries, 0
  {
    hide Parse, Encode, Fits, Sized, ArraysFit, ParseString, EncodeString, FitsString;
    var tail := EncodeEntries(entries[1..]) + rest;
    var middle := Encode(entries[0].value) + tail;
    assert EncodeEntries(entries) + rest == EncodeString(entries[0].key) + middle;
    ParseStringWritten(entries[0].key, middle);
    if Fits(entries[0].value, depth) {
      ReadBack(entries[0].value, depth, tail);
      var i :| 0 <= i < |entries| && !Fits(entries[i].value, depth);
      assert entries[1..][i - 1] == entries[i];
      TooDeepEntriesAreRejected(entries[1..], depth, rest);
    } else {
      TooDeepIsRejected(entries[0].value, depth, tail);
    }
  }

  lemma {:induction false} HostShapedArraysFit(value: StructuredValue, depth: nat)
    requires HostShaped(value, depth) || value.Hole?
    ensures ArraysFit(value)
    decreases value
  {
    match value
    case Array(items) =>
      forall i | 0 <= i < |items| ensures ArraysFit(items[i]) {
        HostShapedArraysFit(items[i], depth + 1);
      }
    case Object(entries) =>
      forall i | 0 <= i < |entries| ensures ArraysFit(entries[i].value) {
        HostShapedArraysFit(entries[i].value, depth + 1);
      }
    case _ =>
  }

  /** The binary round trip: the bytes of a graph within the size limits, followed by anything, are
      read back as exactly the value it denotes, ending exactly where they end, if and only if no
      array at the deepest level has a hole; otherwise the reader rejects them. */
  lemma BinaryRoundTrip(heap: Heap, value: HostValue, rest: seq<byte>)
    requires UniqueKeys(heap) && Unfold(heap, value, {}, 1).Some? && Sized(Unfold(heap, value, {}, 1).value)
    ensures var denoted := Unfold(heap, value, {}, 1).value;
      ReadValue(Encode(denoted) + rest, 1) == if NoDeepHole(denoted, 1) then Read(denoted, rest) else Reject
  {
    hide Unfold, Encode, Parse, Fits, NoDeepHole, Sized, HostShaped, Collapse, ArraysFit, DistinctKeys;
    var denoted := Unfold(heap, value, {}, 1).value;
    DenotedIsHostShaped(heap, value, {}, 1);
    DenotedHasDistinctKeys(heap, value, {}, 1);
    HostShapedIsNoHole(denoted, 1);
    FitsWithoutDeepHoles(denoted, 1);
    if NoDeepHole(denoted, 1) {
      ReadBack(denoted, 1, rest);
      CollapseKeepsDistinct(denoted);
    } else {
      HostShapedArraysFit(denoted, 1);
      TooDeepIsRejected(denoted, 1, rest);
    }
  }

  lemma HostShapedIsNoHole(value: StructuredValue, depth: nat)
    requires HostShaped(value, depth)
    ensures !value.Hole?
  {
  }

  // ------------------------------------------------------------------ a graph the reader rejects

  /** `n` arrays inside one another, the innermost with a single hole. */
  function HoleTower(n: nat): (tower: StructuredValue)
    requires n > 0
  {
    if n == 1 then Array([Hole]) else Array([HoleTower(n - 1)])
  }

  /** Node `k` holds node `k + 1`; node 127 holds a hole. */
  function TowerNode(k: nat): Node {
    ArrayNode([if k == 127 then Absent else Data(Reference(k + 1))])
  }

  ghost function TowerHeap(): Heap {
    map k: nat | k < 128 :: TowerNode(k)
  }

  lemma {:induction false} TowerUnfolds(k: nat, active: set<Ref>)
    requires k < 128 && forall ref :: ref in active ==> ref < k
    ensures Unfold(TowerHeap(), Reference(k), active, k + 1) == Some(HoleTower(128 - k))
    decreases 128 - k
  {
    assert NodeAt(TowerHeap(), k) == TowerNode(k);
    OneSlotUnfolds(TowerHeap(), TowerNode(k).slots[0], active + {k}, k + 2);
    if k < 127 {
      TowerUnfolds(k + 1, active + {k});
    }
  }

  lemma OneSlotUnfolds(heap: Heap, slot: Slot, active: set<Ref>, depth: nat)
    requires !slot.Accessor?
    ensures UnfoldSlots(heap, [slot], active, depth) ==
      match if slot.Absent? then Some(Hole) else Unfold(heap, slot.value, active, depth)
      case None => None
      case Some(item) => Some([item])
  {
    assert [slot][1..] == [] && UnfoldSlots(heap, [], active, depth) == Some([]);
    assert forall item: StructuredValue :: [item] + [] == [item];
  }

  lemma {:induction false} TowerHasDeepHole(n: nat, depth: nat)
    requires n > 0 && depth + n == MAX_DEPTH + 1
    ensures Sized(HoleTower(n)) && !NoDeepHole(HoleTower(n), depth)
    decreases n
  {
    if n > 1 {
      TowerHasDeepHole(n - 1, depth + 1);
      assert HoleTower(n).items[0] == HoleTower(n - 1);
    } else {
      assert HoleTower(n).items[0] == Hole;
    }
  }

  /** 128 nested arrays with a hole in the innermost: both encoders take the graph, the binary
      reader rejects its bytes, and the tree form brings it back. */
  lemma DeepHoleIsWrittenButNotRead(rest: seq<byte>)
    ensures Unfold(TowerHeap(), Reference(0), {}, 1) == Some(HoleTower(128))
    ensures ReadValue(Encode(HoleTower(128)) + rest, 1).Reject?
    ensures Untag(Tag(HoleTower(128)), 1) == Some(HoleTower(128))
  {
    hide Unfold, Encode, Parse, Collapse, HoleTower, NoDeepHole, Sized, Untag, Tag, ReadValue;
    TowerUnfolds(0, {});
    TowerHasDeepHole(128, 1);
    TowerKeys();
    BinaryRoundTrip(TowerHeap(), Reference(0), rest);
    TreeRoundTrip(TowerHeap(), Reference(0), 1);
  }

  lemma TowerKeys()
    ensures UniqueKeys(TowerHeap())
  {
  }
}

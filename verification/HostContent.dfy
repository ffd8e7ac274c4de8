/**
 What a value shows of a host graph, said of each place by itself: no traversal, no order of visits and no
 active set.  What `Unfold` gives is what a graph shows, and a graph shows one value at most.
 */
module HostContent {
  import opened Wrappers
  import opened StructuredValues
  import opened BoundaryFormat
  import opened BoundaryReader
  import opened HostGraph
  import opened HostBoundary
  import opened TaggedTree

  /** How many of the first `n` properties are data properties. */
  function DataBefore(properties: seq<Property>, n: nat): nat
    requires n <= |properties|
  {
    if n == 0 then 0 else DataBefore(properties, n - 1) + if properties[n - 1].slot.Data? then 1 else 0
  }

  /** The value has, at every place, the content of the host value there: the same flag, the same text, the
      same float up to the choice of NaN, an item for each slot of an array with holes exactly where slots
      are absent, and an entry for each data property of an object, in order, under its key. */
  ghost predicate Shows(heap: Heap, host: HostValue, value: StructuredValue)
    decreases value
  {
    match host
    case UndefinedValue => value == Undefined
    case NullValue => value == Null
    case BooleanValue(flag) => value == Bool(flag)
    case NumberValue(bits) => value.Number? && CanonicalNumber(value.number) && SameFloat(ToF64(value.number), bits)
    case StringValue(text) => text.WellFormed? && value == String(text.text)
    case Unsupported => false
    case Reference(ref) =>
      ref in heap &&
      match heap[ref]
      case ArrayNode(slots) => value.Array? && ShowsSlots(heap, slots, value.items)
      case ObjectNode(properties) => value.Object? && ShowsProperties(heap, properties, value.entries)
      case _ => false
  }

  ghost predicate ShowsSlots(heap: Heap, slots: seq<Slot>, items: seq<StructuredValue>)
    decreases items, 0
  {
    && |items| == |slots|
    && forall i :: 0 <= i < |slots| ==>
         match slots[i]
         case Absent => items[i] == Hole
         case Data(value) => items[i] != Hole && Shows(heap, value, items[i])
         case Accessor => false
  }

  ghost predicate ShowsProperties(heap: Heap, properties: seq<Property>, entries: seq<Entry>)
    decreases entries, 0
  {
    && |entries| == DataBefore(properties, |properties|)
    && forall i :: 0 <= i < |properties| ==> ShowsProperty(heap, properties, entries, i)
  }

  /** The data property with number `i` has its entry. */
  ghost predicate ShowsProperty(heap: Heap, properties: seq<Property>, entries: seq<Entry>, i: nat)
    requires i < |properties|
    decreases entries, 0, 0
  {
    match properties[i].slot
    case Absent => true
    case Accessor => false
    case Data(value) =>
      var j := DataBefore(properties, i);
      && j < |entries| && properties[i].key == WellFormed(entries[j].key) && Shows(heap, value, entries[j].value)
  }

  // ------------------------------------------------------------------ a graph shows one value at most

  lemma {:induction false} DataBeforeGrows(properties: seq<Property>, i: nat, n: nat)
    requires i < n <= |properties| && properties[i].slot.Data?
    ensures DataBefore(properties, i) < DataBefore(properties, n)
    decreases n
  {
    if i < n - 1 {
      DataBeforeGrows(properties, i, n - 1);
    }
  }

  /** Every entry belongs to a data property. */
  lemma {:induction false} DataPropertyOf(properties: seq<Property>, n: nat, j: nat) returns (i: nat)
    requires n <= |properties| && j < DataBefore(properties, n)
    ensures i < n && properties[i].slot.Data? && DataBefore(properties, i) == j
    decreases n
  {
    if properties[n - 1].slot.Data? && j == DataBefore(properties, n - 1) {
      i := n - 1;
    } else {
      i := DataPropertyOf(properties, n - 1, j);
    }
  }

  /** What is shown of a graph is the only value it shows. */
  lemma {:induction false} ShowsOneValue(heap: Heap, host: HostValue, a: StructuredValue, b: StructuredValue)
    requires Shows(heap, host, a) && Shows(heap, host, b)
    ensures a == b
    decreases a
  {
    if host.Reference? {
      match heap[host.ref]
      case ArrayNode(slots) =>
        forall i | 0 <= i < |slots| ensures a.items[i] == b.items[i] {
          if slots[i].Data? {
            ShowsOneValue(heap, slots[i].value, a.items[i], b.items[i]);
          }
        }
      case ObjectNode(properties) =>
        forall j | 0 <= j < |a.entries| ensures a.entries[j] == b.entries[j] {
          var i := DataPropertyOf(properties, |properties|, j);
          assert ShowsProperty(heap, properties, a.entries, i) && ShowsProperty(heap, properties, b.entries, i);
          ShowsOneValue(heap, properties[i].slot.value, a.entries[j].value, b.entries[j].value);
        }
      case _ =>
    }
  }

  // ------------------------------------------------------------------ what the traversal gives is shown

  lemma {:induction false} DataBeforeTail(properties: seq<Property>, n: nat)
    requires n < |properties|
    ensures DataBefore(properties, n + 1) == DataBefore(properties[1..], n) + if properties[0].slot.Data? then 1 else 0
    decreases n
  {
    if n > 0 {
      DataBeforeTail(properties, n - 1);
    }
  }

  lemma {:induction false} DataFieldAt(properties: seq<Property>, i: nat)
    requires Enumerable(properties) && i < |properties|
    ensures |DataFields(properties)| == DataBefore(properties, |properties|)
    ensures properties[i].slot.Data? ==>
      var j := DataBefore(properties, i);
      j < |DataFields(properties)| && DataFields(properties)[j] == HostGraph.Field(properties[i].key.text, properties[i].slot.value)
    decreases |properties|
  {
    var tail := properties[1..];
    DataBeforeTail(properties, |tail|);
    if tail != [] {
      DataFieldAt(tail, if i > 0 then i - 1 else 0);
    }
    if i > 0 {
      DataBeforeTail(properties, i - 1);
      assert tail[i - 1] == properties[i];
    }
  }

  lemma {:induction false} UnfoldShows(heap: Heap, value: HostValue, active: set<Ref>, depth: nat)
    requires Unfold(heap, value, active, depth).Some?
    ensures Shows(heap, value, Unfold(heap, value, active, depth).value)
    ensures Unfold(heap, value, active, depth).value != Hole
    decreases Levels(depth), 0, 0
  {
    match value
    case NumberValue(bits) => NumberConversionsInvert(bits, NaN);
    case Reference(ref) =>
      match NodeAt(heap, ref) {
        case ArrayNode(slots) => UnfoldShowsSlots(heap, slots, active + {ref}, depth + 1);
        case ObjectNode(properties) => UnfoldShowsProperties(heap, properties, active + {ref}, depth + 1);
        case _ =>
      }
    case _ =>
  }

  lemma {:induction false} UnfoldShowsSlots(heap: Heap, slots: seq<Slot>, active: set<Ref>, depth: nat)
    requires UnfoldSlots(heap, slots, active, depth).Some?
    ensures ShowsSlots(heap, slots, UnfoldSlots(heap, slots, active, depth).value)
    decreases Levels(depth), 1, |slots|
  {
    if slots != [] {
      if slots[0].Data? {
        UnfoldShows(heap, slots[0].value, active, depth);
      }
      UnfoldShowsSlots(heap, slots[1..], active, depth);
    }
  }

  lemma {:induction false} UnfoldShowsFields(heap: Heap, fields: seq<HostGraph.Field>, active: set<Ref>, depth: nat)
    requires UnfoldFields(heap, fields, active, depth).Some?
    ensures forall j :: 0 <= j < |fields| ==> Shows(heap, fields[j].value, UnfoldFields(heap, fields, active, depth).value[j].value)
    decreases Levels(depth), 1, |fields|
  {
    if fields != [] {
      UnfoldShows(heap, fields[0].value, active, depth);
      UnfoldShowsFields(heap, fields[1..], active, depth);
    }
  }

  lemma {:induction false} UnfoldShowsProperties(heap: Heap, properties: seq<Property>, active: set<Ref>, depth: nat)
    requires Enumerable(properties) && UnfoldFields(heap, DataFields(properties), active, depth).Some?
    ensures ShowsProperties(heap, properties, UnfoldFields(heap, DataFields(properties), active, depth).value)
    decreases Levels(depth), 2
  {
    var fields := DataFields(properties);
    UnfoldShowsFields(heap, fields, active, depth);
    var entries := UnfoldFields(heap, fields, active, depth).value;
    if properties != [] {
      DataFieldAt(properties, 0);
    }
    forall i | 0 <= i < |properties| ensures ShowsProperty(heap, properties, entries, i) {
      DataFieldAt(properties, i);
    }
  }

  /** What the tree of a graph is decoded to has the graph's content. */
  lemma TreeShows(heap: Heap, value: HostValue, depth: nat)
    requires Unfold(heap, value, {}, depth).Some?
    ensures var decoded := Untag(Tag(Unfold(heap, value, {}, depth).value), depth);
      decoded.Some? && Shows(heap, value, decoded.value)
  {
    hide Unfold, Shows, Untag, Tag;
    UnfoldShows(heap, value, {}, depth);
    TreeRoundTrip(heap, value, depth);
  }

  lemma WhatIsWrittenIsShown(heap: Heap, value: HostValue, active: set<Ref>, depth: nat)
    ensures Unfold(heap, value, active, depth).Some? ==> Shows(heap, value, Unfold(heap, value, active, depth).value)
    ensures active == {} && Unfold(heap, value, active, depth).Some? ==>
      var decoded := Untag(Tag(Unfold(heap, value, active, depth).value), depth);
      decoded.Some? && Shows(heap, value, decoded.value)
  {
    hide Unfold, Shows, Untag, Tag;
    if Unfold(heap, value, active, depth).Some? {
      UnfoldShows(heap, value, active, depth);
      if active == {} {
        TreeShows(heap, value, depth);
      }
    }
  }

  /** What the traversal makes of a graph, without the traversal: it gives what the graph shows, and gives it
      exactly when every reachable value may cross. */
  lemma UnfoldsExactlyWhatIsShown(heap: Heap, value: HostValue, active: set<Ref>, depth: nat, shown: StructuredValue)
    ensures Unfold(heap, value, active, depth) == Some(shown) <==>
      Admissible(heap, value, active, depth) && Shows(heap, value, shown)
  {
    hide Unfold, Admissible, Shows;
    UnfoldsExactlyAdmissible(heap, value, active, depth);
    if Unfold(heap, value, active, depth).Some? {
      UnfoldShows(heap, value, active, depth);
      if Shows(heap, value, shown) {
        ShowsOneValue(heap, value, shown, Unfold(heap, value, active, depth).value);
      }
    }
  }

  // ------------------------------------------------------------------ after the crossing

  /** Lengths fit 32 bits. */
  ghost predicate SmallGraph(heap: Heap, value: HostValue) {
    forall shown :: Shows(heap, value, shown) ==> Sized(shown)
  }

  /** No array at the deepest level has a hole. */
  ghost predicate NoDeepHoleIn(heap: Heap, value: HostValue) {
    forall shown :: Shows(heap, value, shown) ==> NoDeepHole(shown, 1)
  }

  /** What the reader makes of the bytes of a graph has the graph's content, and it makes something of them
      exactly when no array at the deepest level has a hole. */
  lemma BytesShow(heap: Heap, value: HostValue, rest: seq<byte>)
    requires UniqueKeys(heap) && Unfold(heap, value, {}, 1).Some? && SmallGraph(heap, value)
    ensures var read := ReadValue(Encode(Unfold(heap, value, {}, 1).value) + rest, 1);
      && (read.Read? <==> NoDeepHoleIn(heap, value))
      && (read.Read? ==> Shows(heap, value, read.value) && read.rest == rest)
  {
    hide Unfold, Shows, ReadValue, Encode, Sized, NoDeepHole, UniqueKeys;
    UnfoldShows(heap, value, {}, 1);
    BinaryRoundTrip(heap, value, rest);
    OnlyWhatIsShown(heap, value, Unfold(heap, value, {}, 1).value);
  }

  lemma OnlyWhatIsShown(heap: Heap, value: HostValue, shown: StructuredValue)
    requires Shows(heap, value, shown)
    ensures forall other :: Shows(heap, value, other) ==> other == shown
  {
    hide Shows;
    forall other | Shows(heap, value, other) ensures other == shown {
      ShowsOneValue(heap, value, other, shown);
    }
  }
}

/**
 What the cursor parser of crates/mustard-node/src/boundary_binary.rs makes of the grammar of
 `BoundaryFormat`: the values it builds, the bytes it accepts, and how large they can be.
 */
module BoundaryReader {
  import opened Wrappers
  import opened StructuredValues
  import opened Bytes
  import opened BoundaryFormat

  // ------------------------------------------------------------------ insertion-ordered maps

  /** `IndexMap::insert`: a known key keeps its place and gets the new value. */
  function Insert(entries: seq<Entry>, key: string, value: StructuredValue): (inserted: seq<Entry>)
    ensures |entries| <= |inserted| <= |entries| + 1
  {
    if entries == [] then [Entry(key, value)]
    else if entries[0].key == key then [Entry(key, value)] + entries[1..]
    else [entries[0]] + Insert(entries[1..], key, value)
  }

  /** The value the reader builds from what the grammar reads: each object is an insertion-ordered
      map filled entry by entry. */
  function Collapse(value: StructuredValue): StructuredValue
    decreases value, 1
  {
    match value
    case Array(items) => Array(CollapseItems(items))
    case Object(entries) => Object(CollapseOnto([], entries))
    case _ => value
  }

  function CollapseItems(items: seq<StructuredValue>): (collapsed: seq<StructuredValue>)
    ensures |collapsed| == |items|
    decreases items, 0
  {
    if items == [] then [] else [Collapse(items[0])] + CollapseItems(items[1..])
  }

  function CollapseOnto(done: seq<Entry>, entries: seq<Entry>): (collapsed: seq<Entry>)
    ensures |done| <= |collapsed| <= |done| + |entries|
    decreases entries, 0
  {
    if entries == [] then done
    else CollapseOnto(Insert(done, entries[0].key, Collapse(entries[0].value)), entries[1..])
  }

  predicate KeysDiffer(entries: seq<Entry>) {
    forall i, k :: 0 <= i < k < |entries| ==> entries[i].key != entries[k].key
  }

  /** No object at any depth repeats a key. */
  predicate DistinctKeys(value: StructuredValue) {
    match value
    case Array(items) => forall i :: 0 <= i < |items| ==> DistinctKeys(items[i])
    case Object(entries) =>
      KeysDiffer(entries) && forall i :: 0 <= i < |entries| ==> DistinctKeys(entries[i].value)
    case _ => true
  }

  lemma {:induction false} InsertNewKey(entries: seq<Entry>, key: string, value: StructuredValue)
    requires forall i :: 0 <= i < |entries| ==> entries[i].key != key
    ensures Insert(entries, key, value) == entries + [Entry(key, value)]
  {
    if entries != [] {
      InsertNewKey(entries[1..], key, value);
    }
  }

  predicate HasEntry(entries: seq<Entry>, key: string) {
    exists i :: 0 <= i < |entries| && entries[i].key == key
  }

  lemma NoEntry(key: string)
    ensures !HasEntry([], key)
  {
  }

  lemma FirstEntry(entries: seq<Entry>, key: string)
    requires entries != []
    ensures HasEntry(entries, key) <==> key == entries[0].key || HasEntry(entries[1..], key)
  {
    if HasEntry(entries[1..], key) {
      var i :| 0 <= i < |entries| - 1 && entries[1..][i].key == key;
      assert entries[i + 1].key == key;
    }
    if HasEntry(entries, key) && key != entries[0].key {
      var i :| 0 <= i < |entries| && entries[i].key == key;
      assert entries[1..][i - 1].key == key;
    }
  }

  lemma FirstKeyIsNew(entries: seq<Entry>)
    requires entries != [] && KeysDiffer(entries)
    ensures !HasEntry(entries[1..], entries[0].key)
  {
  }

  lemma {:induction false} InsertPointwise(entries: seq<Entry>, key: string, value: StructuredValue)
    requires KeysDiffer(entries)
    ensures var inserted := Insert(entries, key, value);
      && |inserted| == (if HasEntry(entries, key) then |entries| else |entries| + 1)
      && (|inserted| == |entries| + 1 ==> inserted[|entries|] == Entry(key, value))
      && forall i :: 0 <= i < |entries| ==>
           inserted[i] == if entries[i].key == key then Entry(key, value) else entries[i]
  {
    hide HasEntry;
    if entries == [] {
      NoEntry(key);
    } else {
      FirstEntry(entries, key);
      FirstKeyIsNew(entries);
      if entries[0].key == key {
        assert forall i :: 1 <= i < |entries| ==> entries[i].key != key;
      } else {
        InsertPointwise(entries[1..], key, value);
        assert forall i :: 1 <= i < |entries| ==> entries[i] == entries[1..][i - 1];
      }
    }
  }

  /** What `Insert` does to the keys and to each value. */
  lemma InsertKeys(entries: seq<Entry>, key: string, value: StructuredValue)
    requires KeysDiffer(entries)
    ensures var inserted := Insert(entries, key, value);
      && KeysDiffer(inserted)
      && (forall i :: 0 <= i < |entries| ==>
            inserted[i] == if entries[i].key == key then Entry(key, value) else entries[i])
      && (|inserted| == |entries| + 1 ==> inserted[|entries|] == Entry(key, value))
      && (|inserted| == |entries| <==> HasEntry(entries, key))
  {
    InsertPointwise(entries, key, value);
  }

  /** What the reader builds never repeats a key. */
  lemma {:induction false} CollapseIsDistinct(value: StructuredValue)
    ensures DistinctKeys(Collapse(value))
    decreases value, 1
  {
    match value
    case Array(items) => CollapseItemsAreDistinct(items);
    case Object(entries) => CollapseOntoIsDistinct([], entries);
    case _ =>
  }

  lemma {:induction false} CollapseItemsAreDistinct(items: seq<StructuredValue>)
    ensures forall i :: 0 <= i < |items| ==> DistinctKeys(CollapseItems(items)[i])
    decreases items, 0
  {
    if items != [] {
      CollapseIsDistinct(items[0]);
      CollapseItemsAreDistinct(items[1..]);
    }
  }

  lemma {:induction false} CollapseOntoIsDistinct(done: seq<Entry>, entries: seq<Entry>)
    requires KeysDiffer(done) && forall i :: 0 <= i < |done| ==> DistinctKeys(done[i].value)
    ensures DistinctKeys(Object(CollapseOnto(done, entries)))
    decreases entries, 0
  {
    if entries != [] {
      CollapseIsDistinct(entries[0].value);
      InsertKeys(done, entries[0].key, Collapse(entries[0].value));
      CollapseOntoIsDistinct(Insert(done, entries[0].key, Collapse(entries[0].value)), entries[1..]);
    }
  }

  /** Reading a value changes it only if some object repeats a key. */
  lemma {:induction false} CollapseKeepsDistinct(value: StructuredValue)
    requires DistinctKeys(value)
    ensures Collapse(value) == value
    decreases value, 1
  {
    match value
    case Array(items) => CollapseItemsKeepsDistinct(items);
    case Object(entries) => CollapseOntoKeepsDistinct([], entries);
    case _ =>
  }

  lemma {:induction false} CollapseItemsKeepsDistinct(items: seq<StructuredValue>)
    requires forall i :: 0 <= i < |items| ==> DistinctKeys(items[i])
    ensures CollapseItems(items) == items
    decreases items, 0
  {
    if items != [] {
      CollapseKeepsDistinct(items[0]);
      CollapseItemsKeepsDistinct(items[1..]);
      assert items == [items[0]] + items[1..];
    }
  }

  lemma {:induction false} CollapseOntoKeepsDistinct(done: seq<Entry>, entries: seq<Entry>)
    requires DistinctKeys(Object(done + entries))
    ensures CollapseOnto(done, entries) == done + entries
    decreases entries, 0
  {
    var all := done + entries;
    if entries != [] {
      assert all[|done|] == entries[0];
      assert forall i :: 0 <= i < |done| ==> all[i] == done[i];
      CollapseKeepsDistinct(entries[0].value);
      InsertNewKey(done, entries[0].key, entries[0].value);
      assert entries[0] == Entry(entries[0].key, entries[0].value);
      assert (done + [entries[0]]) + entries[1..] == all;
      CollapseOntoKeepsDistinct(done + [entries[0]], entries[1..]);
    } else {
      assert all == done;
    }
  }

  // ------------------------------------------------------------------ the language of the reader

  /** The reader's language is exactly the set of encodings of values within the limits. */
  lemma ReadsExactlyEncodings(input: seq<byte>, depth: nat, value: StructuredValue, rest: seq<byte>)
    ensures Parse(input, depth) == Read(value, rest) <==> Fits(value, depth) && input == Encode(value) + rest
  {
    AcceptedIsWritten(input, depth);
    if Fits(value, depth) {
      ReadBack(value, depth, rest);
    }
  }

  /** Every strict prefix and every proper extension of a complete encoding is rejected or leaves
      bytes over: at most one prefix of any input is a complete encoding. */
  lemma CompleteReadsAreUnique(input: seq<byte>, more: seq<byte>, depth: nat)
    ensures Parse(input, depth).Read? ==>
      Parse(input + more, depth) == Read(Parse(input, depth).value, Parse(input, depth).rest + more)
    ensures more != [] && Parse(input + more, depth).Read? && Parse(input + more, depth).rest == []
            ==> Parse(input, depth).Reject?
  {
    var parsed := Parse(input, depth);
    AcceptedIsWritten(input, depth);
    if parsed.Read? {
      assert input + more == Encode(parsed.value) + (parsed.rest + more);
      ReadBack(parsed.value, depth, parsed.rest + more);
    }
  }

  function Nodes(value: StructuredValue): nat
    decreases value, 1
  {
    match value
    case Array(items) => 1 + NodesOfItems(items)
    case Object(entries) => 1 + NodesOfEntries(entries)
    case _ => 1
  }

  function NodesOfItems(items: seq<StructuredValue>): nat
    decreases items, 0
  {
    if items == [] then 0 else Nodes(items[0]) + NodesOfItems(items[1..])
  }

  function NodesOfEntries(entries: seq<Entry>): nat
    decreases entries, 0
  {
    if entries == [] then 0 else Nodes(entries[0].value) + NodesOfEntries(entries[1..])
  }

  lemma {:induction false} EveryNodeTakesAByte(value: StructuredValue)
    ensures Nodes(value) <= |Encode(value)|
    decreases value, 1
  {
    match value
    case Array(items) => EveryItemTakesAByte(items);
    case Object(entries) => EveryEntryTakesAByte(entries);
    case _ =>
  }

  lemma {:induction false} EveryItemTakesAByte(items: seq<StructuredValue>)
    ensures NodesOfItems(items) <= |EncodeItems(items)|
    decreases items, 0
  {
    if items != [] {
      EveryNodeTakesAByte(items[0]);
      EveryItemTakesAByte(items[1..]);
    }
  }

  lemma {:induction false} EveryEntryTakesAByte(entries: seq<Entry>)
    ensures NodesOfEntries(entries) <= |EncodeEntries(entries)|
    decreases entries, 0
  {
    if entries != [] {
      EveryNodeTakesAByte(entries[0].value);
      EveryEntryTakesAByte(entries[1..]);
    }
  }

  lemma {:induction false} CollapseNeverGrows(value: StructuredValue)
    ensures Nodes(Collapse(value)) <= Nodes(value)
    decreases value, 1
  {
    match value
    case Array(items) => CollapseItemsNeverGrow(items);
    case Object(entries) => CollapseOntoNeverGrows([], entries);
    case _ =>
  }

  lemma {:induction false} CollapseItemsNeverGrow(items: seq<StructuredValue>)
    ensures NodesOfItems(CollapseItems(items)) <= NodesOfItems(items)
    decreases items, 0
  {
    if items != [] {
      CollapseNeverGrows(items[0]);
      CollapseItemsNeverGrow(items[1..]);
    }
  }

  lemma {:induction false} CollapseOntoNeverGrows(done: seq<Entry>, entries: seq<Entry>)
    ensures NodesOfEntries(CollapseOnto(done, entries)) <= NodesOfEntries(done) + NodesOfEntries(entries)
    decreases entries, 0
  {
    if entries != [] {
      CollapseNeverGrows(entries[0].value);
      InsertAddsOneValue(done, entries[0].key, Collapse(entries[0].value));
      CollapseOntoNeverGrows(Insert(done, entries[0].key, Collapse(entries[0].value)), entries[1..]);
    }
  }

  lemma {:induction false} InsertAddsOneValue(entries: seq<Entry>, key: string, value: StructuredValue)
    ensures NodesOfEntries(Insert(entries, key, value)) <= NodesOfEntries(entries) + Nodes(value)
  {
    if entries != [] && entries[0].key != key {
      InsertAddsOneValue(entries[1..], key, value);
    }
  }

  /** An accepted value has no more nodes than the bytes it took. */
  lemma AcceptedValuesAreSmall(input: seq<byte>, depth: nat)
    requires Parse(input, depth).Read?
    ensures Nodes(Collapse(Parse(input, depth).value)) + |Parse(input, depth).rest| <= |input|
  {
    AcceptedIsWritten(input, depth);
    EveryNodeTakesAByte(Parse(input, depth).value);
    CollapseNeverGrows(Parse(input, depth).value);
  }

  /** Writing back what the reader built gives the bytes it read exactly when no object in them
      repeated a key. */
  lemma ReencodingIsExact(input: seq<byte>, depth: nat)
    requires Parse(input, depth).Read? && Parse(input, depth).rest == []
    ensures Encode(Collapse(Parse(input, depth).value)) == input <==> DistinctKeys(Parse(input, depth).value)
  {
    hide Parse, Encode, Fits, Collapse, DistinctKeys;
    var value := Parse(input, depth).value;
    AcceptedIsWritten(input, depth);
    assert Encode(value) + [] == Encode(value);
    if DistinctKeys(value) {
      CollapseKeepsDistinct(value);
    } else {
      CollapseIsDistinct(value);
      CollapseFits(value, depth);
      ReadBack(Collapse(value), depth, []);
      assert Encode(Collapse(value)) + [] == Encode(Collapse(value));
    }
  }

  lemma {:induction false} CollapseFits(value: StructuredValue, depth: nat)
    requires Fits(value, depth)
    ensures Fits(Collapse(value), depth)
    decreases value, 1
  {
    match value
    case Array(items) => CollapseItemsFit(items, depth + 1);
    case Object(entries) => CollapseOntoFits([], entries, depth + 1);
    case _ =>
  }

  lemma {:induction false} CollapseItemsFit(items: seq<StructuredValue>, depth: nat)
    requires forall i :: 0 <= i < |items| ==> Fits(items[i], depth)
    ensures forall i :: 0 <= i < |items| ==> Fits(CollapseItems(items)[i], depth)
    decreases items, 0
  {
    if items != [] {
      CollapseFits(items[0], depth);
      CollapseItemsFit(items[1..], depth);
    }
  }

  predicate EntriesFit(entries: seq<Entry>, depth: nat) {
    forall i :: 0 <= i < |entries| ==> FitsString(entries[i].key) && Fits(entries[i].value, depth)
  }

  lemma {:induction false} CollapseOntoFits(done: seq<Entry>, entries: seq<Entry>, depth: nat)
    requires EntriesFit(done, depth) && EntriesFit(entries, depth)
    ensures EntriesFit(CollapseOnto(done, entries), depth)
    decreases entries, 0
  {
    if entries != [] {
      CollapseFits(entries[0].value, depth);
      InsertFits(done, entries[0].key, Collapse(entries[0].value), depth);
      CollapseOntoFits(Insert(done, entries[0].key, Collapse(entries[0].value)), entries[1..], depth);
    }
  }

  lemma {:induction false} InsertFits(entries: seq<Entry>, key: string, value: StructuredValue, depth: nat)
    requires EntriesFit(entries, depth) && FitsString(key) && Fits(value, depth)
    ensures EntriesFit(Insert(entries, key, value), depth)
  {
    if entries != [] && entries[0].key != key {
      InsertFits(entries[1..], key, value, depth);
    }
  }

  // ------------------------------------------------------------------ repeated keys

  lemma {:induction false} CollapseLast(done: seq<Entry>, entries: seq<Entry>, last: Entry)
    ensures CollapseOnto(done, entries + [last]) == Insert(CollapseOnto(done, entries), last.key, Collapse(last.value))
    decreases |entries|
  {
    hide Insert, Collapse;
    if entries == [] {
      assert [last][1..] == [] && [] + [last] == [last];
      assert CollapseOnto(done, [last]) == CollapseOnto(Insert(done, last.key, Collapse(last.value)), []);
    } else {
      assert (entries + [last])[1..] == entries[1..] + [last];
      CollapseLast(Insert(done, entries[0].key, Collapse(entries[0].value)), entries[1..], last);
    }
  }

  /** Where a key stands first; the length if nowhere. */
  function FirstAt(entries: seq<Entry>, key: string): (i: nat)
    ensures i <= |entries|
  {
    if entries == [] || entries[0].key == key then 0 else 1 + FirstAt(entries[1..], key)
  }

  lemma {:induction false} FirstAtAppended(entries: seq<Entry>, last: Entry, key: string)
    ensures HasEntry(entries, key) <==> FirstAt(entries, key) < |entries|
    ensures FirstAt(entries + [last], key) ==
      if FirstAt(entries, key) < |entries| then FirstAt(entries, key)
      else if last.key == key then |entries| else |entries| + 1
    decreases |entries|
  {
    if entries == [] {
      assert [] + [last] == [last] && [last][1..] == [];
    } else {
      assert (entries + [last])[1..] == entries[1..] + [last];
      FirstAtAppended(entries[1..], last, key);
      FirstEntry(entries, key);
    }
  }

  /** The entry with number `i` is the last one with its key. */
  predicate IsLast(entries: seq<Entry>, i: nat)
    requires i < |entries|
  {
    forall k :: i < k < |entries| ==> entries[k].key != entries[i].key
  }

  /** The value that an object gets for a key is the one that was read last for it, and keys stand in the order
      in which they were first read. */
  ghost predicate LastOneWins(entries: seq<Entry>, collapsed: seq<Entry>) {
    && KeysDiffer(collapsed)
    && (forall key :: HasEntry(collapsed, key) <==> HasEntry(entries, key))
    && (forall i, j :: 0 <= i < |entries| && 0 <= j < |collapsed| && IsLast(entries, i) && collapsed[j].key == entries[i].key
          ==> collapsed[j].value == Collapse(entries[i].value))
    && (forall j, k :: 0 <= j < k < |collapsed| ==> FirstAt(entries, collapsed[j].key) < FirstAt(entries, collapsed[k].key))
  }

  lemma {:induction false} RepeatedKeysCollapse(entries: seq<Entry>)
    ensures LastOneWins(entries, CollapseOnto([], entries))
    decreases |entries|
  {
    hide CollapseOnto, Collapse, Insert, FirstAt;
    if entries == [] {
      assert CollapseOnto([], []) == [] by { NothingCollapses(); }
    } else {
      var n := |entries| - 1;
      var before, last := entries[..n], entries[n];
      assert entries == before + [last];
      RepeatedKeysCollapse(before);
      CollapseLast([], before, last);
      InsertKeepsLast(before, last, CollapseOnto([], before));
    }
  }

  lemma NothingCollapses()
    ensures CollapseOnto([], []) == []
  {
  }

  lemma InsertKeepsLast(before: seq<Entry>, last: Entry, collapsed: seq<Entry>)
    requires LastOneWins(before, collapsed)
    ensures LastOneWins(before + [last], Insert(collapsed, last.key, Collapse(last.value)))
  {
    hide Collapse, Insert, FirstAt, HasEntry, IsLast;
    var inserted := Insert(collapsed, last.key, Collapse(last.value));
    InsertKeys(collapsed, last.key, Collapse(last.value));
    var entries := before + [last];
    forall key ensures HasEntry(inserted, key) <==> HasEntry(entries, key) {
      EntryAppended(before, last, key);
      InsertedKeys(collapsed, inserted, last.key, key);
    }
    forall i, j | 0 <= i < |entries| && 0 <= j < |inserted| && IsLast(entries, i) && inserted[j].key == entries[i].key
      ensures inserted[j].value == Collapse(entries[i].value)
    {
      LastValue(before, last, collapsed, i, j);
    }
    forall j, k | 0 <= j < k < |inserted| ensures FirstAt(entries, inserted[j].key) < FirstAt(entries, inserted[k].key) {
      FirstOrder(before, last, collapsed, j, k);
    }
  }

  lemma FirstOrder(before: seq<Entry>, last: Entry, collapsed: seq<Entry>, j: nat, k: nat)
    requires LastOneWins(before, collapsed) && j < k < |Insert(collapsed, last.key, Collapse(last.value))|
    ensures var inserted := Insert(collapsed, last.key, Collapse(last.value));
      FirstAt(before + [last], inserted[j].key) < FirstAt(before + [last], inserted[k].key)
  {
    hide Collapse, Insert, FirstAt, HasEntry, IsLast;
    InsertKeys(collapsed, last.key, Collapse(last.value));
    var inserted := Insert(collapsed, last.key, Collapse(last.value));
    FirstAtAppended(before, last, inserted[j].key);
    FirstAtAppended(before, last, inserted[k].key);
    HasItsOwn(collapsed, j);
    HasItsOwn(collapsed, k);
  }

  lemma LastValue(before: seq<Entry>, last: Entry, collapsed: seq<Entry>, i: nat, j: nat)
    requires LastOneWins(before, collapsed) && i <= |before| && IsLast(before + [last], i)
    requires var inserted := Insert(collapsed, last.key, Collapse(last.value));
      j < |inserted| && inserted[j].key == (before + [last])[i].key
    ensures Insert(collapsed, last.key, Collapse(last.value))[j].value == Collapse((before + [last])[i].value)
  {
    hide Collapse, Insert, FirstAt, HasEntry;
    InsertPointwise(collapsed, last.key, Collapse(last.value));
    var entries := before + [last];
    assert entries[|before|] == last;
    if i < |before| {
      assert last.key != before[i].key;
      assert IsLast(before, i) by {
        assert forall k :: i < k < |before| ==> entries[k] == before[k];
      }
    }
  }

  lemma HasItsOwn(entries: seq<Entry>, i: nat)
    ensures i < |entries| ==> HasEntry(entries, entries[i].key)
  {
  }

  lemma EntryAppended(entries: seq<Entry>, last: Entry, key: string)
    ensures HasEntry(entries + [last], key) <==> HasEntry(entries, key) || last.key == key
  {
    var all := entries + [last];
    assert all[|entries|] == last;
    assert forall i :: 0 <= i < |entries| ==> all[i] == entries[i];
  }

  lemma InsertedKeys(before: seq<Entry>, after: seq<Entry>, inserted: string, key: string)
    requires |before| <= |after| <= |before| + 1 && (|after| == |before| <==> HasEntry(before, inserted))
    requires forall i :: 0 <= i < |before| ==> after[i].key == before[i].key
    requires |after| == |before| + 1 ==> after[|before|].key == inserted
    ensures HasEntry(after, key) <==> HasEntry(before, key) || key == inserted
  {
    if HasEntry(before, key) {
      var i :| 0 <= i < |before| && before[i].key == key;
      assert after[i].key == key;
    }
    if |after| == |before| + 1 {
      assert after[|before|].key == inserted;
    }
  }
}

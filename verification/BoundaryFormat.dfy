/**
 The binary host-boundary format: what the bytes of a structured value are, as a printer and as a
 grammar, and that the two are inverse.

 `Encode` is what lib/structured.ts:386-470 writes for a value and `Parse` is the grammar that
 crates/mustard-node/src/boundary_binary.rs:186-267 accepts.  `Parse` keeps every object entry it
 reads; `Collapse` is what the reader's insertion-ordered map makes of repeated keys.
 */
module BoundaryFormat {
  import opened Wrappers
  import opened StructuredValues
  import opened Bytes

  const MAX_DEPTH: nat := 128
  const MAX_ARRAY_LENGTH: nat := 1_000_000

  const MAGIC: seq<byte> := [0x4D, 0x53, 0x42, 0x01]

  const TAG_UNDEFINED: byte := 0
  const TAG_NULL: byte := 1
  const TAG_HOLE: byte := 2
  const TAG_FALSE: byte := 3
  const TAG_TRUE: byte := 4
  const TAG_STRING: byte := 5
  const TAG_FINITE: byte := 6
  const TAG_NAN: byte := 7
  const TAG_INFINITY: byte := 8
  const TAG_NEG_INFINITY: byte := 9
  const TAG_NEG_ZERO: byte := 10
  const TAG_ARRAY: byte := 11
  const TAG_OBJECT: byte := 12

  // ------------------------------------------------------------------ printing

  function EncodeString(text: string): seq<byte> {
    U32(|Utf8(text)|) + Utf8(text)
  }

  function EncodeNumber(number: StructuredNumber): seq<byte> {
    match number
    case Finite(bits) => [TAG_FINITE] + U64(bits)
    case NaN => [TAG_NAN]
    case Infinity => [TAG_INFINITY]
    case NegInfinity => [TAG_NEG_INFINITY]
    case NegZero => [TAG_NEG_ZERO]
  }

  function Encode(value: StructuredValue): seq<byte>
    decreases value, 1
  {
    match value
    case Undefined => [TAG_UNDEFINED]
    case Null => [TAG_NULL]
    case Hole => [TAG_HOLE]
    case Bool(flag) => [if flag then TAG_TRUE else TAG_FALSE]
    case String(text) => [TAG_STRING] + EncodeString(text)
    case Number(number) => EncodeNumber(number)
    case Array(items) => [TAG_ARRAY] + U32(|items|) + EncodeItems(items)
    case Object(entries) => [TAG_OBJECT] + U32(|entries|) + EncodeEntries(entries)
  }

  function EncodeItems(items: seq<StructuredValue>): seq<byte>
    decreases items, 0
  {
    if items == [] then [] else Encode(items[0]) + EncodeItems(items[1..])
  }

  function EncodeEntries(entries: seq<Entry>): seq<byte>
    decreases entries, 0
  {
    if entries == [] then []
    else EncodeString(entries[0].key) + Encode(entries[0].value) + EncodeEntries(entries[1..])
  }

  // ------------------------------------------------------------------ the grammar

  /** What was read, and the bytes after it. */
  datatype Parsed<+T> = Read(value: T, rest: seq<byte>) | Reject

  function ParseBytes(input: seq<byte>, n: nat): Parsed<seq<byte>> {
    if n > |input| then Reject else Read(input[..n], input[n..])
  }

  function ParseU32(input: seq<byte>): (parsed: Parsed<nat>)
    ensures parsed.Read? ==> parsed.value < U32_LIMIT
  {
    if |input| < 4 then Reject
    else
      FixedWidthLE(0, input[..4]);
      Read(FromLE(input[..4]), input[4..])
  }

  function ParseF64(input: seq<byte>): Parsed<F64> {
    if |input| < 8 then Reject
    else
      FixedWidthLE(0, input[..8]);
      Read(FromLE(input[..8]), input[8..])
  }

  function ParseString(input: seq<byte>): Parsed<string> {
    match ParseU32(input)
    case Reject => Reject
    case Read(n, after) =>
      match ParseBytes(after, n)
      case Reject => Reject
      case Read(bytes, rest) => if FromUtf8(bytes).Some? then Read(FromUtf8(bytes).value, rest) else Reject
  }

  function Leaf(value: StructuredValue, rest: seq<byte>): Parsed<StructuredValue> {
    Read(value, rest)
  }

  function Levels(depth: nat): nat {
    if depth > MAX_DEPTH then 0 else MAX_DEPTH + 1 - depth
  }

  function Parse(input: seq<byte>, depth: nat): Parsed<StructuredValue>
    decreases Levels(depth), 0, 0
  {
    if depth > MAX_DEPTH || input == [] then Reject
    else
      var tag, rest := input[0], input[1..];
      if tag == TAG_UNDEFINED then Leaf(Undefined, rest)
      else if tag == TAG_NULL then Leaf(Null, rest)
      else if tag == TAG_HOLE then Leaf(Hole, rest)
      else if tag == TAG_FALSE then Leaf(Bool(false), rest)
      else if tag == TAG_TRUE then Leaf(Bool(true), rest)
      else if tag == TAG_STRING then
        match ParseString(rest)
        case Reject => Reject
        case Read(text, after) => Leaf(String(text), after)
      else if tag == TAG_FINITE then
        match ParseF64(rest)
        case Reject => Reject
        case Read(bits, after) => Leaf(Number(Finite(bits)), after)
      else if tag == TAG_NAN then Leaf(Number(NaN), rest)
      else if tag == TAG_INFINITY then Leaf(Number(Infinity), rest)
      else if tag == TAG_NEG_INFINITY then Leaf(Number(NegInfinity), rest)
      else if tag == TAG_NEG_ZERO then Leaf(Number(NegZero), rest)
      else if tag == TAG_ARRAY then
        match ParseU32(rest)
        case Reject => Reject
        case Read(n, after) =>
          if n > MAX_ARRAY_LENGTH then Reject
          else
            match ParseItems(after, n, depth + 1)
            case Reject => Reject
            case Read(items, last) => Leaf(Array(items), last)
      else if tag == TAG_OBJECT then
        match ParseU32(rest)
        case Reject => Reject
        case Read(n, after) =>
          match ParseEntries(after, n, depth + 1)
          case Reject => Reject
          case Read(entries, last) => Leaf(Object(entries), last)
      else Reject
  }

  function ParseItems(input: seq<byte>, n: nat, depth: nat): Parsed<seq<StructuredValue>>
    decreases Levels(depth), 1, n
  {
    if n == 0 then Read([], input)
    else
      match Parse(input, depth)
      case Reject => Reject
      case Read(item, after) =>
        match ParseItems(after, n - 1, depth)
        case Reject => Reject
        case Read(items, rest) => Read([item] + items, rest)
  }

  function ParseEntries(input: seq<byte>, n: nat, depth: nat): Parsed<seq<Entry>>
    decreases Levels(depth), 1, n
  {
    if n == 0 then Read([], input)
    else
      match ParseString(input)
      case Reject => Reject
      case Read(key, afterKey) =>
        match Parse(afterKey, depth)
        case Reject => Reject
        case Read(value, after) =>
          match ParseEntries(after, n - 1, depth)
          case Reject => Reject
          case Read(entries, rest) => Read([Entry(key, value)] + entries, rest)
  }

  // ------------------------------------------------------------------ what can be transmitted

  predicate FitsString(text: string) {
    |Utf8(text)| < U32_LIMIT
  }

  /** The value at nesting level `depth` respects every limit of the format; a hole is a level. */
  predicate Fits(value: StructuredValue, depth: nat)
    decreases value
  {
    && depth <= MAX_DEPTH
    && match value
       case String(text) => FitsString(text)
       case Array(items) => |items| <= MAX_ARRAY_LENGTH && forall i :: 0 <= i < |items| ==> Fits(items[i], depth + 1)
       case Object(entries) =>
         && |entries| < U32_LIMIT
         && forall i :: 0 <= i < |entries| ==> FitsString(entries[i].key) && Fits(entries[i].value, depth + 1)
       case _ => true
  }

  // ------------------------------------------------------------------ reading back what was written

  lemma ParseU32Written(n: nat, rest: seq<byte>)
    requires n < U32_LIMIT
    ensures ParseU32(U32(n) + rest) == Read(n, rest)
  {
    FixedWidthLE(n, []);
    assert (U32(n) + rest)[..4] == U32(n) && (U32(n) + rest)[4..] == rest;
  }

  lemma ParseStringWritten(text: string, rest: seq<byte>)
    requires FitsString(text)
    ensures ParseString(EncodeString(text) + rest) == Read(text, rest)
  {
    var bytes := Utf8(text);
    assert EncodeString(text) + rest == U32(|bytes|) + (bytes + rest);
    ParseU32Written(|bytes|, bytes + rest);
    assert (bytes + rest)[..|bytes|] == bytes && (bytes + rest)[|bytes|..] == rest;
    Utf8RoundTrip(text);
  }

  /** A value within the limits is read back from its encoding, whatever follows, and reading
      stops exactly where the encoding ends. */
  lemma {:induction false} ReadBack(value: StructuredValue, depth: nat, rest: seq<byte>)
    requires Fits(value, depth)
    ensures Parse(Encode(value) + rest, depth) == Read(value, rest)
    decreases value, 1
  {
    hide ParseString, EncodeString, ParseU32, U32, ParseItems, EncodeItems, ParseEntries, EncodeEntries, FitsString;
    var input := Encode(value) + rest;
    match value
    case String(text) =>
      assert input[1..] == EncodeString(text) + rest;
      ParseStringWritten(text, rest);
    case Number(number) =>
      if number.Finite? {
        F64RoundTrip(number.bits);
        assert input[1..][..8] == U64(number.bits) && input[1..][8..] == rest;
      } else {
        assert input[1..] == rest;
      }
    case Array(items) =>
      assert input[1..] == U32(|items|) + (EncodeItems(items) + rest);
      ParseU32Written(|items|, EncodeItems(items) + rest);
      ReadBackItems(items, depth + 1, rest);
    case Object(entries) =>
      assert input[1..] == U32(|entries|) + (EncodeEntries(entries) + rest);
      ParseU32Written(|entries|, EncodeEntries(entries) + rest);
      ReadBackEntries(entries, depth + 1, rest);
    case _ =>
      assert input[1..] == rest;
  }

  lemma {:induction false} ReadBackItems(items: seq<StructuredValue>, depth: nat, rest: seq<byte>)
    requires forall i :: 0 <= i < |items| ==> Fits(items[i], depth)
    ensures ParseItems(EncodeItems(items) + rest, |items|, depth) == Read(items, rest)
    decreases items, 0
  {
    hide Parse, Encode, Fits;
    if items == [] {
      assert EncodeItems(items) + rest == rest;
    } else {
      var tail := EncodeItems(items[1..]) + rest;
      assert EncodeItems(items) + rest == Encode(items[0]) + tail;
      ReadBack(items[0], depth, tail);
      ReadBackItems(items[1..], depth, rest);
      assert [items[0]] + items[1..] == items;
    }
  }

  lemma {:induction false} ReadBackEntries(entries: seq<Entry>, depth: nat, rest: seq<byte>)
    requires forall i :: 0 <= i < |entries| ==> FitsString(entries[i].key) && Fits(entries[i].value, depth)
    ensures ParseEntries(EncodeEntries(entries) + rest, |entries|, depth) == Read(entries, rest)
    decreases entries, 0
  {
    hide ParseString, EncodeString, Parse, Encode, FitsString, Fits;
    if entries == [] {
      assert EncodeEntries(entries) + rest == rest;
    } else {
      var tail := EncodeEntries(entries[1..]) + rest;
      var middle := Encode(entries[0].value) + tail;
      assert EncodeEntries(entries) + rest == EncodeString(entries[0].key) + middle;
      ParseStringWritten(entries[0].key, middle);
      ReadBack(entries[0].value, depth, tail);
      ReadBackEntries(entries[1..], depth, rest);
      assert [entries[0]] + entries[1..] == entries;
    }
  }

  // ------------------------------------------------------------------ only written bytes are read

  lemma ParseStringIsWritten(input: seq<byte>)
    ensures match ParseString(input)
            case Read(text, rest) => FitsString(text) && input == EncodeString(text) + rest
            case Reject => true
  {
    hide FromUtf8, Utf8, U32, FromLE;
    ParseU32IsWritten(input);
    match ParseU32(input)
    case Reject =>
    case Read(n, after) =>
      if n <= |after| {
        var bytes, rest := after[..n], after[n..];
        Utf8IsUnique(bytes);
        assert after == bytes + rest;
        assert input == (U32(n) + bytes) + rest;
      }
  }

  /** A tag byte in front of some bytes. */
  lemma TagThenBody(tag: byte, body: seq<byte>, rest: seq<byte>)
    ensures var input := ([tag] + body) + rest; input != [] && input[0] == tag && input[1..] == body + rest
  {
  }

  lemma ParseU32IsWritten(input: seq<byte>)
    ensures match ParseU32(input)
            case Read(n, rest) => n < U32_LIMIT && input == U32(n) + rest
            case Reject => true
  {
    if |input| >= 4 {
      FixedWidthLE(0, input[..4]);
      assert input == input[..4] + input[4..];
    }
  }

  /** Everything the reader accepts is the encoding of what it returns, and respects every limit. */
  lemma {:induction false} AcceptedIsWritten(input: seq<byte>, depth: nat)
    ensures match Parse(input, depth)
            case Read(value, rest) => Fits(value, depth) && input == Encode(value) + rest
            case Reject => true
    decreases Levels(depth), 0, 0
  {
    hide ParseString, EncodeString, ParseU32, U32, ParseItems, EncodeItems, ParseEntries, EncodeEntries, FitsString;
    if depth <= MAX_DEPTH && input != [] {
      var tag, rest := input[0], input[1..];
      assert input == [tag] + rest;
      if tag == TAG_STRING {
        ParseStringIsWritten(rest);
      } else if tag == TAG_FINITE {
        if |rest| >= 8 {
          FixedWidthLE(0, rest[..8]);
          assert rest == rest[..8] + rest[8..];
        }
      } else if tag == TAG_ARRAY {
        ParseU32IsWritten(rest);
        match ParseU32(rest)
        case Reject =>
        case Read(n, after) => AcceptedItemsAreWritten(after, n, depth + 1);
      } else if tag == TAG_OBJECT {
        ParseU32IsWritten(rest);
        match ParseU32(rest)
        case Reject =>
        case Read(n, after) => AcceptedEntriesAreWritten(after, n, depth + 1);
      }
    }
  }

  lemma {:induction false} AcceptedItemsAreWritten(input: seq<byte>, n: nat, depth: nat)
    ensures match ParseItems(input, n, depth)
            case Read(items, rest) =>
              && |items| == n && input == EncodeItems(items) + rest
              && forall i :: 0 <= i < n ==> Fits(items[i], depth)
            case Reject => true
    decreases Levels(depth), 1, n
  {
    hide Parse, Encode, Fits;
    if n > 0 {
      AcceptedIsWritten(input, depth);
      match Parse(input, depth)
      case Reject =>
      case Read(item, after) =>
        AcceptedItemsAreWritten(after, n - 1, depth);
        match ParseItems(after, n - 1, depth)
        case Reject =>
        case Read(items, rest) =>
          var all := [item] + items;
          assert all[1..] == items;
          assert input == (Encode(item) + EncodeItems(items)) + rest;
    }
  }

  lemma {:induction false} AcceptedEntriesAreWritten(input: seq<byte>, n: nat, depth: nat)
    ensures match ParseEntries(input, n, depth)
            case Read(entries, rest) =>
              && |entries| == n && input == EncodeEntries(entries) + rest
              && forall i :: 0 <= i < n ==> FitsString(entries[i].key) && Fits(entries[i].value, depth)
            case Reject => true
    decreases Levels(depth), 1, n
  {
    hide ParseString, EncodeString, Parse, Encode, FitsString, Fits;
    if n > 0 {
      ParseStringIsWritten(input);
      match ParseString(input)
      case Reject =>
      case Read(key, afterKey) =>
        AcceptedIsWritten(afterKey, depth);
        match Parse(afterKey, depth)
        case Reject =>
        case Read(value, after) =>
          AcceptedEntriesAreWritten(after, n - 1, depth);
          match ParseEntries(after, n - 1, depth)
          case Reject =>
          case Read(entries, rest) =>
            var all := [Entry(key, value)] + entries;
            assert all[1..] == entries;
            assert input == EncodeString(key) + Encode(value) + EncodeEntries(entries) + rest;
    }
  }
}

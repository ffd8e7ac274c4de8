/** What single values and messages look like on each wire, byte by byte and key by key. */
module KnownForms {
  import opened Wrappers
  import opened StructuredValues
  import opened Bytes
  import opened BoundaryFormat
  import opened BoundaryMessages
  import opened MessageMeaning
  import opened TaggedTree
  import opened Framing

  // ------------------------------------------------------------------ bytes

  /** The first byte is the lowest. */
  lemma FourBytes(a: byte, b: byte, c: byte, d: byte)
    ensures U32(a + 0x100 * b + 0x1_0000 * c + 0x100_0000 * d) == [a, b, c, d]
  {
    var bytes := [a, b, c, d];
    assert bytes[1..] == [b, c, d] && bytes[1..][1..] == [c, d] && bytes[1..][1..][1..] == [d];
    assert FromLE([d]) == d + 256 * FromLE([]) == d;
    assert FromLE([c, d]) == c + 256 * FromLE([d]);
    assert FromLE([b, c, d]) == b + 256 * FromLE([c, d]);
    assert FromLE(bytes) == a + 0x100 * b + 0x1_0000 * c + 0x100_0000 * d;
    FixedWidthLE(0, bytes);
  }

  /** The float 1. */
  const ONE: F64 := 0x3FF0_0000_0000_0000

  lemma KnownFloat()
    ensures U64(ONE) == [0, 0, 0, 0, 0, 0, 0xF0, 0x3F]
  {
    var bytes := [0, 0, 0, 0, 0, 0, 0xF0, 0x3F];
    assert bytes[4..] == [0, 0, 0xF0, 0x3F];
    FourBytes(0, 0, 0xF0, 0x3F);
    FixedWidthLE(0x3FF0_0000, []);
    assert FromLE(bytes[4..]) == 0x3FF0_0000;
    assert bytes[3..][1..] == bytes[4..] && bytes[2..][1..] == bytes[3..] && bytes[1..][1..] == bytes[2..];
    assert FromLE(bytes[3..]) == 256 * FromLE(bytes[4..]);
    assert FromLE(bytes[2..]) == 256 * FromLE(bytes[3..]);
    assert FromLE(bytes[1..]) == 256 * FromLE(bytes[2..]);
    assert FromLE(bytes) == 256 * FromLE(bytes[1..]) == ONE;
    FixedWidthLE(0, bytes);
  }

  lemma KnownIntegers(n: byte)
    ensures U32(n) == [n, 0, 0, 0] && U32(0x0403_0201) == [1, 2, 3, 4]
  {
    FourBytes(n, 0, 0, 0);
    FourBytes(1, 2, 3, 4);
  }

  lemma KnownTexts()
    ensures Utf8("A") == [0x41] && Utf8("\U{E9}") == [0xC3, 0xA9] && Utf8("\U{20AC}") == [0xE2, 0x82, 0xAC]
    ensures Utf8("\U{1F600}") == [0xF0, 0x9F, 0x98, 0x80] && Utf8("B") == [0x42] && Utf8("AB") == [0x41, 0x42] && Utf8("") == []
  {
    OneChar('A');
    OneChar('\U{E9}');
    OneChar('\U{20AC}');
    OneChar('\U{1F600}');
    OneChar('B');
    assert "AB"[1..] == "B";
  }

  lemma OneChar(c: char)
    ensures Utf8([c]) == Utf8Char(c)
  {
    assert [c][1..] == "";
    assert Utf8Char(c) + [] == Utf8Char(c);
  }

  lemma KnownString()
    ensures EncodeString("A") == [1, 0, 0, 0, 0x41] && EncodeString("B") == [1, 0, 0, 0, 0x42]
  {
    hide U32, Utf8;
    KnownIntegers(1);
    KnownTexts();
  }

  /** Each kind of value has its tag byte, booleans and the special numbers one each. */
  lemma KnownLeaves(bits: F64)
    ensures Encode(Undefined) == [0] && Encode(Null) == [1] && Encode(Hole) == [2]
    ensures Encode(Bool(false)) == [3] && Encode(Bool(true)) == [4]
    ensures Encode(String("A")) == [5, 1, 0, 0, 0, 0x41]
    ensures Encode(Number(Finite(bits))) == [6] + U64(bits)
    ensures Encode(Number(NaN)) == [7] && Encode(Number(Infinity)) == [8] && Encode(Number(NegInfinity)) == [9]
    ensures Encode(Number(NegZero)) == [10]
  {
    hide U64, EncodeString;
    KnownString();
  }

  /** Lengths are four bytes, and keys stand before their values. */
  lemma KnownContainers(item: StructuredValue)
    ensures Encode(Array([])) == [11, 0, 0, 0, 0] && Encode(Array([item])) == [11, 1, 0, 0, 0] + Encode(item)
    ensures Encode(Object([])) == [12, 0, 0, 0, 0]
    ensures Encode(Object([Entry("A", item)])) == [12, 1, 0, 0, 0, 1, 0, 0, 0, 0x41] + Encode(item)
  {
    hide EncodeItems, EncodeEntries, U32;
    KnownIntegers(0);
    KnownIntegers(1);
    OneItem(item);
    OneEntry(item);
    var bytes := Encode(item);
    assert [11] + [1, 0, 0, 0] + bytes == [11, 1, 0, 0, 0] + bytes;
    assert [12] + [1, 0, 0, 0] + ([1, 0, 0, 0, 0x41] + bytes) == [12, 1, 0, 0, 0, 1, 0, 0, 0, 0x41] + bytes;
    hide Encode;
  }

  lemma OneItem(item: StructuredValue)
    ensures EncodeItems([]) == [] && EncodeItems([item]) == Encode(item)
  {
    hide Encode;
    assert [item][1..] == [];
    assert Encode(item) + [] == Encode(item);
  }

  lemma OneEntry(item: StructuredValue)
    ensures EncodeEntries([]) == [] && EncodeEntries([Entry("A", item)]) == [1, 0, 0, 0, 0x41] + Encode(item)
  {
    hide Encode, EncodeString;
    KnownString();
    assert [Entry("A", item)][1..] == [];
    assert [1, 0, 0, 0, 0x41] + Encode(item) + [] == [1, 0, 0, 0, 0x41] + Encode(item);
  }

  // ------------------------------------------------------------------ messages

  /** A limit has the mask bit of its place: the instruction budget the lowest, then heap, allocations, call
      depth and host calls. */
  lemma KnownMasks(a: F64)
    ensures Mask(Fields(Limits(Some(a), None, None, None, None))) == 1
    ensures Mask(Fields(Limits(None, Some(a), None, None, None))) == 2
    ensures Mask(Fields(Limits(None, None, Some(a), None, None))) == 4
    ensures Mask(Fields(Limits(None, None, None, Some(a), None))) == 8
    ensures Mask(Fields(Limits(None, None, None, None, Some(a)))) == 16
  {
    MaskOfFive(Some(a), None, None, None, None);
    MaskOfFive(None, Some(a), None, None, None);
    MaskOfFive(None, None, Some(a), None, None);
    MaskOfFive(None, None, None, Some(a), None);
    MaskOfFive(None, None, None, None, Some(a));
  }

  function Bit(field: Option<F64>): nat {
    if field.Some? then 1 else 0
  }

  lemma MaskOfFive(a: Option<F64>, b: Option<F64>, c: Option<F64>, d: Option<F64>, e: Option<F64>)
    ensures Mask([a, b, c, d, e]) == Bit(a) + 2 * Bit(b) + 4 * Bit(c) + 8 * Bit(d) + 16 * Bit(e)
  {
    MaskOfFirst(e, []);
    MaskOfFirst(d, [e]);
    MaskOfFirst(c, [d, e]);
    MaskOfFirst(b, [c, d, e]);
    MaskOfFirst(a, [b, c, d, e]);
    assert [a] + [b, c, d, e] == [a, b, c, d, e] && [b] + [c, d, e] == [b, c, d, e] && [c] + [d, e] == [c, d, e];
    assert [d] + [e] == [d, e] && [e] + [] == [e];
    hide Mask;
  }

  lemma MaskOfFirst(field: Option<F64>, rest: seq<Option<F64>>)
    ensures Mask([field] + rest) == Bit(field) + 2 * Mask(rest)
  {
    assert ([field] + rest)[1..] == rest;
  }

  /** Whole messages: the magic, the kind, and then the parts in order. */
  lemma KnownInputsMessage()
    ensures InputsBytes([Entry("A", Bool(true))]) == [0x4D, 0x53, 0x42, 1, 2, 1, 0, 0, 0, 1, 0, 0, 0, 0x41, 4]
  {
    hide EncodeInputs;
    KnownParts();
  }

  lemma KnownStartMessage()
    ensures StartBytes([], ["A"], Limits(None, Some(ONE), None, None, None)) ==
      [0x4D, 0x53, 0x42, 1, 1, 0, 0, 0, 0, 1, 0, 0, 0, 1, 0, 0, 0, 0x41, 2, 0, 0, 0, 0, 0, 0, 0xF0, 0x3F]
  {
    hide EncodeInputs, EncodeStringVec, EncodeLimitFields, Mask, Fields;
    KnownParts();
    KnownLimits();
  }

  lemma KnownResumeMessages()
    ensures ResumeBytes(ResumeValue(Bool(true))) == [0x4D, 0x53, 0x42, 1, 3, 0, 4]
    ensures ResumeBytes(ResumeCancelled) == [0x4D, 0x53, 0x42, 1, 3, 2]
  {
    hide Encode;
    KnownParts();
  }

  /** Name, message, a flag for the missing code, a flag for the details and the details. */
  lemma KnownErrorMessage()
    ensures ResumeBytes(ResumeError("A", "B", None, Some(Null))) ==
      [0x4D, 0x53, 0x42, 1, 3, 1, 1, 0, 0, 0, 0x41, 1, 0, 0, 0, 0x42, 0, 1, 1]
  {
    hide EncodeString, Encode;
    KnownParts();
  }

  lemma KnownParts()
    ensures EncodeString("A") == [1, 0, 0, 0, 0x41] && EncodeString("B") == [1, 0, 0, 0, 0x42]
    ensures EncodeInputs([Entry("A", Bool(true))]) == [1, 0, 0, 0, 1, 0, 0, 0, 0x41, 4] && EncodeInputs([]) == [0, 0, 0, 0]
    ensures EncodeStringVec(["A"]) == [1, 0, 0, 0, 1, 0, 0, 0, 0x41]
    ensures Encode(Bool(true)) == [4] && Encode(Null) == [1]
  {
    hide U32, EncodeString, EncodeEntries;
    KnownIntegers(0);
    KnownIntegers(1);
    KnownString();
    OneEntry(Bool(true));
    assert ["A"][1..] == [];
    assert EncodeStrings(["A"]) == EncodeString("A") + [];
  }

  lemma KnownLimits()
    ensures var fields := Fields(Limits(None, Some(ONE), None, None, None));
      Mask(fields) == 2 && EncodeLimitFields(fields) == [0, 0, 0, 0, 0, 0, 0xF0, 0x3F]
  {
    var one := ONE;
    var fields := Fields(Limits(None, Some(one), None, None, None));
    KnownMasks(one);
    KnownFloat();
    assert fields[1..] == [Some(one), None, None, None] && fields[1..][1..] == [None, None, None];
    NoLimitFields([None, None, None]);
    assert EncodeLimitFields(fields) == [] + EncodeLimitFields(fields[1..]);
    assert EncodeLimitFields(fields[1..]) == U64(one) + EncodeLimitFields([None, None, None]);
  }

  lemma {:induction false} NoLimitFields(fields: seq<Option<F64>>)
    requires forall i :: 0 <= i < |fields| ==> fields[i].None?
    ensures EncodeLimitFields(fields) == []
  {
    if fields != [] {
      NoLimitFields(fields[1..]);
    }
  }

  // ------------------------------------------------------------------ frames

  /** Header length, blob length, header and blob, in that order. */
  lemma KnownFrame()
    ensures FrameBytes(Frame([0x7B, 0x7D], [9])) == [2, 0, 0, 0, 1, 0, 0, 0, 0x7B, 0x7D, 9]
  {
    hide U32;
    KnownIntegers(1);
    KnownIntegers(2);
  }

  // ------------------------------------------------------------------ the tagged tree

  /** Each kind of value has its tag. */
  lemma KnownTreeLeaves(text: string, bits: F64)
    ensures Tag(Undefined) == JString("Undefined") && Tag(Null) == JString("Null") && Tag(Hole) == JString("Hole")
    ensures Tag(Bool(true)) == JObject([Member("Bool", JBool(true))]) && Tag(Bool(false)) == JObject([Member("Bool", JBool(false))])
    ensures Tag(String(text)) == JObject([Member("String", JString(text))])
    ensures Tag(Number(Finite(bits))) == JObject([Member("Number", JObject([Member("Finite", JNumber(bits))]))])
    ensures Tag(Number(NaN)) == JObject([Member("Number", JString("NaN"))])
    ensures Tag(Number(Infinity)) == JObject([Member("Number", JString("Infinity"))])
    ensures Tag(Number(NegInfinity)) == JObject([Member("Number", JString("NegInfinity"))])
    ensures Tag(Number(NegZero)) == JObject([Member("Number", JString("NegZero"))])
  {
  }

  /** Items and entries stay in order under their tag, and so do the arguments of a manifest. */
  lemma KnownTrees(item: StructuredValue, other: StructuredValue, key: string, second: string)
    ensures Tag(Array([item, other])) == JObject([Member("Array", JArray([Tag(item), Tag(other)]))])
    ensures Tag(Object([Entry(key, item), Entry(second, other)])) ==
      JObject([Member("Object", JObject([Member(key, Tag(item)), Member(second, Tag(other))]))])
    ensures Manifest(key, [item, other]) ==
      JObject([Member("capability", JString(key)), Member("args", JArray([Tag(item), Tag(other)]))])
  {
    TwoItems(item, other);
    TwoEntries(key, item, second, other);
    hide TagItems, TagEntries;
  }

  lemma TwoItems(item: StructuredValue, other: StructuredValue)
    ensures TagItems([item, other]) == [Tag(item), Tag(other)]
  {
    hide Tag;
    var items := [item, other];
    assert items[1..] == [other] && [other][1..] == [];
    assert TagItems(items) == [Tag(item)] + TagItems([other]);
    assert TagItems([other]) == [Tag(other)] + TagItems([]);
  }

  lemma TwoEntries(key: string, item: StructuredValue, second: string, other: StructuredValue)
    ensures TagEntries([Entry(key, item), Entry(second, other)]) == [Member(key, Tag(item)), Member(second, Tag(other))]
  {
    hide Tag;
    var entries := [Entry(key, item), Entry(second, other)];
    assert entries[1..] == [Entry(second, other)] && [Entry(second, other)][1..] == [];
    assert TagEntries(entries) == [Member(key, Tag(item))] + TagEntries([Entry(second, other)]);
    assert TagEntries([Entry(second, other)]) == [Member(second, Tag(other))] + TagEntries([]);
  }
}

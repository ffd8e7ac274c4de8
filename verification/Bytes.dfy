/** Little-endian integers and UTF-8, the two leaf encodings of every wire format here. */
module Bytes {
  import opened Wrappers
  import opened StructuredValues

  // ------------------------------------------------------------------ little-endian integers

  function Pow256(k: nat): (p: nat)
    ensures p > 0
  {
    if k == 0 then 1 else 256 * Pow256(k - 1)
  }

  /** The `k` low bytes of `n`, least significant first: the high part is dropped, as `>>> 0`
      followed by `writeUInt32LE` does. */
  function ToLE(n: nat, k: nat): (bytes: seq<byte>)
    ensures |bytes| == k
  {
    if k == 0 then [] else [n % 256] + ToLE(n / 256, k - 1)
  }

  function FromLE(bytes: seq<byte>): nat {
    if bytes == [] then 0 else bytes[0] + 256 * FromLE(bytes[1..])
  }

  lemma {:induction false} FromLEBound(bytes: seq<byte>)
    ensures FromLE(bytes) < Pow256(|bytes|)
  {
    if bytes != [] {
      FromLEBound(bytes[1..]);
    }
  }

  /** Writing then reading gives the number back exactly when it fits. */
  lemma {:induction false} ReadAfterWriteLE(n: nat, k: nat)
    ensures FromLE(ToLE(n, k)) == n <==> n < Pow256(k)
  {
    if k == 0 {
    } else {
      ReadAfterWriteLE(n / 256, k - 1);
      var bytes := ToLE(n, k);
      assert bytes[1..] == ToLE(n / 256, k - 1);
      assert n == n % 256 + 256 * (n / 256);
    }
  }

  lemma {:induction false} WriteAfterReadLE(bytes: seq<byte>)
    ensures ToLE(FromLE(bytes), |bytes|) == bytes
  {
    if bytes != [] {
      WriteAfterReadLE(bytes[1..]);
      assert FromLE(bytes) % 256 == bytes[0] && FromLE(bytes) / 256 == FromLE(bytes[1..]);
    }
  }

  const U32_LIMIT: nat := 0x1_0000_0000

  function U32(n: nat): (bytes: seq<byte>)
    ensures |bytes| == 4
  {
    ToLE(n, 4)
  }

  function U64(n: F64): (bytes: seq<byte>)
    ensures |bytes| == 8
  {
    ToLE(n, 8)
  }

  lemma Pow256Of4And8()
    ensures Pow256(4) == U32_LIMIT && Pow256(8) == 0x1_0000_0000_0000_0000
  {
    assert Pow256(2) == 65536;
    assert Pow256(4) == 65536 * Pow256(2);
    assert Pow256(6) == 65536 * Pow256(4);
  }

  /** The two field widths of the boundary format. */
  lemma FixedWidthLE(n: nat, bytes: seq<byte>)
    ensures FromLE(U32(n)) == n <==> n < U32_LIMIT
    ensures |bytes| == 4 ==> FromLE(bytes) < U32_LIMIT && U32(FromLE(bytes)) == bytes
    ensures |bytes| == 8 ==> FromLE(bytes) < 0x1_0000_0000_0000_0000 && ToLE(FromLE(bytes), 8) == bytes
  {
    Pow256Of4And8();
    ReadAfterWriteLE(n, 4);
    FromLEBound(bytes);
    WriteAfterReadLE(bytes);
  }

  lemma F64RoundTrip(bits: F64)
    ensures FromLE(U64(bits)) == bits
  {
    Pow256Of4And8();
    ReadAfterWriteLE(bits, 8);
  }

  // ------------------------------------------------------------------ UTF-8

  /** The UTF-8 form of one Unicode scalar value. */
  function Utf8Char(c: char): (bytes: seq<byte>)
    ensures 1 <= |bytes| <= 4
  {
    var n := c as int;
    if n < 0x80 then [n]
    else if n < 0x800 then [0xC0 + n / 64, 0x80 + n % 64]
    else if n < 0x10000 then [0xE0 + n / 64 / 64, 0x80 + n / 64 % 64, 0x80 + n % 64]
    else [0xF0 + n / 64 / 64 / 64, 0x80 + n / 64 / 64 % 64, 0x80 + n / 64 % 64, 0x80 + n % 64]
  }

  function Utf8(text: string): (bytes: seq<byte>) {
    if text == "" then [] else Utf8Char(text[0]) + Utf8(text[1..])
  }

  predicate Continuation(b: byte) {
    0x80 <= b < 0xC0
  }

  /** A number from its leading bits and six more. */
  function Join(high: int, low: byte): int {
    64 * high + (low - 0x80)
  }

  function Scalar(n: int, low: nat, length: nat): Option<(char, nat)> {
    if low <= n < 0xD800 || (low <= n && 0xE000 <= n < 0x110000) then Some((n as char, length)) else None
  }

  /** The scalar value and length of the first character, if `bytes` starts with a shortest-form
      encoding of one (no overlong form, no surrogate, nothing above U+10FFFF). */
  function FirstChar(bytes: seq<byte>): (first: Option<(char, nat)>)
    ensures first.Some? ==> 1 <= first.value.1 <= |bytes|
  {
    if bytes == [] then None
    else
      var lead: int := bytes[0];
      if lead < 0x80 then Some((lead as char, 1))
      else if 0xC0 <= lead < 0xE0 && |bytes| >= 2 && Continuation(bytes[1]) then
        Scalar(Join(lead - 0xC0, bytes[1]), 0x80, 2)
      else if 0xE0 <= lead < 0xF0 && |bytes| >= 3 && Continuation(bytes[1]) && Continuation(bytes[2]) then
        Scalar(Join(Join(lead - 0xE0, bytes[1]), bytes[2]), 0x800, 3)
      else if 0xF0 <= lead < 0xF8 && |bytes| >= 4
              && Continuation(bytes[1]) && Continuation(bytes[2]) && Continuation(bytes[3]) then
        Scalar(Join(Join(Join(lead - 0xF0, bytes[1]), bytes[2]), bytes[3]), 0x10000, 4)
      else None
  }

  /** `str::from_utf8`. */
  function FromUtf8(bytes: seq<byte>): Option<string>
    decreases |bytes|
  {
    if bytes == [] then Some("")
    else
      match FirstChar(bytes)
      case None => None
      case Some((c, n)) =>
        match FromUtf8(bytes[n..])
        case None => None
        case Some(rest) => Some([c] + rest)
  }

  lemma JoinInverts(n: int, high: int, low: byte)
    ensures n >= 0 ==> 0 <= 0x80 + n % 64 < 256 && Join(n / 64, 0x80 + n % 64) == n
    ensures Continuation(low) ==> Join(high, low) / 64 == high && 0x80 + Join(high, low) % 64 == low
  {
  }

  lemma FirstCharOfUtf8(c: char, rest: seq<byte>)
    ensures FirstChar(Utf8Char(c) + rest) == Some((c, |Utf8Char(c)|))
  {
    hide Join;
    var n := c as int;
    JoinInverts(n, 0, 0);
    JoinInverts(n / 64, 0, 0);
    JoinInverts(n / 64 / 64, 0, 0);
    var bytes, all := Utf8Char(c), Utf8Char(c) + rest;
    assert forall i :: 0 <= i < |bytes| ==> all[i] == bytes[i];
  }

  lemma FirstCharIsShortest(bytes: seq<byte>)
    ensures match FirstChar(bytes)
            case Some((c, n)) => bytes[..n] == Utf8Char(c)
            case None => true
  {
    hide Join;
    if |bytes| >= 2 && bytes[0] >= 0x80 {
      var lead: int := bytes[0];
      if lead < 0xE0 {
        JoinInverts(0, lead - 0xC0, bytes[1]);
      } else if |bytes| >= 3 && lead < 0xF0 {
        JoinInverts(0, lead - 0xE0, bytes[1]);
        JoinInverts(0, Join(lead - 0xE0, bytes[1]), bytes[2]);
      } else if |bytes| >= 4 {
        JoinInverts(0, lead - 0xF0, bytes[1]);
        JoinInverts(0, Join(lead - 0xF0, bytes[1]), bytes[2]);
        JoinInverts(0, Join(Join(lead - 0xF0, bytes[1]), bytes[2]), bytes[3]);
      }
    }
  }

  lemma {:induction false} Utf8RoundTrip(text: string)
    ensures FromUtf8(Utf8(text)) == Some(text)
  {
    if text != "" {
      FirstCharOfUtf8(text[0], Utf8(text[1..]));
      Utf8RoundTrip(text[1..]);
      assert Utf8(text)[|Utf8Char(text[0])|..] == Utf8(text[1..]);
      assert [text[0]] + text[1..] == text;
    }
  }

  /** Only the UTF-8 form of a string decodes to it. */
  lemma {:induction false} Utf8IsUnique(bytes: seq<byte>)
    ensures FromUtf8(bytes).Some? ==> Utf8(FromUtf8(bytes).value) == bytes
    decreases |bytes|
  {
    if bytes != [] {
      FirstCharIsShortest(bytes);
      match FirstChar(bytes)
      case None =>
      case Some((c, n)) =>
        Utf8IsUnique(bytes[n..]);
        assert bytes == bytes[..n] + bytes[n..];
    }
  }
}

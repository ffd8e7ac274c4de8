/** The growable output buffer of lib/structured.ts:43-105. */
module BinaryWriter {
  import opened StructuredValues
  import opened Bytes
  import opened BoundaryFormat

  const INITIAL_SIZE: nat := 256

  class Writer {
    var buffer: array<byte>
    var offset: nat

    ghost predicate Valid()
      reads this
    {
      offset <= buffer.Length && 0 < buffer.Length
    }

    /** The bytes written so far. */
    ghost function Contents(): seq<byte>
      reads this, buffer
      requires Valid()
    {
      buffer[..offset]
    }

    constructor ()
      ensures Valid() && fresh(buffer) && Contents() == []
    {
      buffer := new byte[INITIAL_SIZE];
      offset := 0;
    }

    /** Make room for more bytes by doubling, keeping what was written. */
    method EnsureCapacity(additionalBytes: nat)
      requires Valid()
      modifies this`buffer
      ensures Valid() && Contents() == old(Contents()) && offset == old(offset)
      ensures offset + additionalBytes <= buffer.Length
      ensures buffer == old(buffer) || fresh(buffer)
    {
      var required := offset + additionalBytes;
      if required <= buffer.Length {
        return;
      }
      var nextLength := buffer.Length;
      while nextLength < required
        invariant buffer.Length <= nextLength
        decreases required - nextLength
      {
        nextLength := nextLength * 2;
      }
      var nextBuffer := new byte[nextLength];
      forall i | 0 <= i < offset {
        nextBuffer[i] := buffer[i];
      }
      buffer := nextBuffer;
    }

    method WriteBuffer(value: seq<byte>)
      requires Valid()
      modifies this, buffer
      ensures Valid() && Contents() == old(Contents()) + value
      ensures buffer == old(buffer) || fresh(buffer)
    {
      EnsureCapacity(|value|);
      ghost var before := Contents();
      forall i | 0 <= i < |value| {
        buffer[offset + i] := value[i];
      }
      offset := offset + |value|;
      assert buffer[..offset] == before + value;
    }

    method WriteU8(value: byte)
      requires Valid()
      modifies this, buffer
      ensures Valid() && Contents() == old(Contents()) + [value]
      ensures buffer == old(buffer) || fresh(buffer)
    {
      EnsureCapacity(1);
      buffer[offset] := value;
      assert buffer[..offset] == old(Contents());
      offset := offset + 1;
      assert Contents() == buffer[..offset - 1] + [value];
    }

    /** `>>> 0` keeps the low 32 bits of the number. */
    method WriteU32(value: nat)
      requires Valid()
      modifies this, buffer
      ensures Valid() && Contents() == old(Contents()) + U32(value)
      ensures buffer == old(buffer) || fresh(buffer)
    {
      WriteBuffer(ToLE(value, 4));
    }

    method WriteF64(bits: F64)
      requires Valid()
      modifies this, buffer
      ensures Valid() && Contents() == old(Contents()) + U64(bits)
      ensures buffer == old(buffer) || fresh(buffer)
    {
      WriteBuffer(ToLE(bits, 8));
    }

    method WriteString(text: string)
      requires Valid()
      modifies this, buffer
      ensures Valid() && Contents() == old(Contents()) + EncodeString(text)
      ensures buffer == old(buffer) || fresh(buffer)
    {
      WriteU32(|Utf8(text)|);
      WriteBuffer(Utf8(text));
    }

    method WriteHeader(kind: byte)
      requires Valid()
      modifies this, buffer
      ensures Valid() && Contents() == old(Contents()) + MAGIC + [kind]
      ensures buffer == old(buffer) || fresh(buffer)
    {
      WriteBuffer(MAGIC);
      WriteU8(kind);
    }
  }
}

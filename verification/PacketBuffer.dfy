/** The packet buffer and its read cursor (network/buffer.cc). */
module PacketBuffer {
  import opened Names

  const BUFLEN: nat := 1501

  class Buffer {
    const data: array<byte>
    var size: nat

    ghost predicate Valid()
      reads this, data
    {
      data.Length == BUFLEN && size <= BUFLEN
    }

    ghost function Contents(): (s: seq<byte>)
      requires Valid()
      reads this, data
      ensures |s| == size
    {
      data[..size]
    }

    constructor ()
      ensures Valid() && Contents() == [] && fresh(data)
    {
      data := new byte[BUFLEN](_ => 0);
      size := 0;
    }

    /** Appends `bytes[from..]`; the write must fit. */
    method Write(bytes: seq<byte>)
      requires Valid() && size + |bytes| <= BUFLEN
      modifies this, data
      ensures Valid() && Contents() == old(Contents()) + bytes
    {
      for i := 0 to |bytes|
        invariant size == old(size) && data[..size] == old(data[..size])
        invariant data[size..size + i] == bytes[..i]
      {
        data[size + i] := bytes[i];
      }
      size := size + |bytes|;
    }

    method WriteU8(b: byte)
      requires Valid() && size + 1 <= BUFLEN
      modifies this, data
      ensures Valid() && Contents() == old(Contents()) + [b]
    {
      Write([b]);
    }
  }

  /** A read cursor over the bytes a buffer held when the cursor was made. */
  class Cursor {
    const data: array<byte>
    const size: nat
    var pos: nat

    ghost predicate Valid()
      reads this, data
    {
      pos <= size <= data.Length
    }

    ghost function Bytes(): (s: seq<byte>)
      requires Valid()
      reads this, data
      ensures |s| == size
    {
      data[..size]
    }

    constructor (b: Buffer)
      requires b.Valid()
      ensures Valid() && Bytes() == b.Contents() && pos == 0
      ensures data == b.data
    {
      data := b.data;
      size := b.size;
      pos := 0;
    }

    function IsEnd(): bool
      reads this
    {
      pos == size
    }

    function PeekU8(): (b: byte)
      requires Valid() && !IsEnd()
      reads this, data
    {
      data[pos]
    }

    method ReadU8() returns (b: byte)
      requires Valid() && !IsEnd()
      modifies this`pos
      ensures Valid() && b == Bytes()[old(pos)] && pos == old(pos) + 1
    {
      b := data[pos];
      pos := pos + 1;
    }

    /** The position, cut to eight bits. */
    function GetDistance(): (n: byte)
      reads this
      ensures pos < 256 ==> n == pos
    {
      pos % 256
    }
  }
}

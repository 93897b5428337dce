/** The variable-length header of a ccnb block: a number and a 3-bit block type
    (helper/ndn-encoding-helper.cc, helper/ccnb-parser/syntax-tree/ccnb-parser-block.cc). */
module BlockHeader {
  import opened Names
  import opened PacketBuffer

  const U32: nat := 0x1_0000_0000
  type u32 = x: nat | x < 0x1_0000_0000

  const CCN_EXT := 0
  const CCN_TAG := 1
  const CCN_DTAG := 2
  const CCN_ATTR := 3
  const CCN_DATTR := 4
  const CCN_BLOB := 5
  const CCN_UDATA := 6
  const CCN_NO_TOKEN := 7
  const CCN_CLOSE: byte := 0

  /** The bytes before the last one: base-128 digits, most significant first. */
  function Continuation(v: nat): (s: seq<byte>) {
    if v == 0 then [] else Continuation(v / 128) + [v % 128]
  }

  /** The last byte carries the high bit, four bits of the number and the block type. */
  function HeaderBytes(val: nat, tt: nat): (s: seq<byte>)
    requires tt < 8
    ensures |s| > 0
  {
    Continuation(val / 16) + [128 + val % 16 * 8 + tt]
  }

  /** What the decoding loop leaves behind: the number so far, the last byte, the position. */
  datatype Scan = Scan(value: u32, last: byte, pos: nat)

  function ScanFrom(b: seq<byte>, pos: nat, value: u32, last: byte): (r: Scan)
    requires pos <= |b|
    ensures pos <= r.pos <= |b|
    decreases |b| - pos
  {
    if pos == |b| || last >= 128 then Scan(value, last, pos)
    else ScanFrom(b, pos + 1, (value * 128 % U32 + last) % U32, b[pos])
  }

  datatype Header = Header(value: u32, tt: nat, pos: nat)

  function ReadHeader(b: seq<byte>, pos: nat): (h: Header)
    requires pos <= |b|
    ensures pos <= h.pos <= |b| && h.tt < 8
    ensures pos < |b| ==> pos < h.pos
    ensures pos == |b| ==> h == Header(0, CCN_EXT, pos)
  {
    var r := ScanFrom(b, pos, 0, 0);
    Header((r.value * 16 % U32 + r.last % 128 / 8) % U32, r.last % 8, r.pos)
  }

  ghost predicate At(b: seq<byte>, pos: nat, s: seq<byte>) {
    pos + |s| <= |b| && b[pos..pos + |s|] == s
  }

  lemma AtConcat(b: seq<byte>, pos: nat, s: seq<byte>, t: seq<byte>)
    ensures At(b, pos, s + t) <==> At(b, pos, s) && At(b, pos + |s|, t)
  {
    if At(b, pos, s + t) {
      assert b[pos..pos + |s|] == (s + t)[..|s|];
      assert b[pos + |s|..pos + |s| + |t|] == (s + t)[|s|..];
    }
    if At(b, pos, s) && At(b, pos + |s|, t) {
      assert b[pos..pos + |s + t|] == b[pos..pos + |s|] + b[pos + |s|..pos + |s| + |t|];
    }
  }

  lemma NoWrap(value: u32, last: byte)
    requires value * 128 + last < U32
    ensures (value * 128 % U32 + last) % U32 == value * 128 + last
  {
  }

  lemma {:induction false} ScanContinuation(b: seq<byte>, pos: nat, v: nat) returns (value: u32, last: byte)
    requires v < U32 && At(b, pos, Continuation(v))
    ensures ScanFrom(b, pos, 0, 0) == ScanFrom(b, pos + |Continuation(v)|, value, last)
    ensures last < 128 && value * 128 + last == v
  {
    if v == 0 {
      value, last := 0, 0;
    } else {
      AtConcat(b, pos, Continuation(v / 128), [v % 128]);
      value, last := ScanContinuation(b, pos, v / 128);
      var p := pos + |Continuation(v / 128)|;
      assert b[p] == b[p..p + 1][0] == v % 128;
      NoWrap(value, last);
      value, last := v / 128, v % 128;
    }
  }

  lemma LastByteFields(val: u32, tt: nat, last: byte)
    requires tt < 8 && last == 128 + val % 16 * 8 + tt
    ensures last % 128 / 8 == val % 16 && last % 8 == tt
    ensures val / 16 * 16 % U32 + last % 128 / 8 == val
  {
    assert last % 128 == val % 16 * 8 + tt;
    assert val / 16 * 16 < U32;
  }

  /** Decoding inverts encoding wherever the header stands, for every 32-bit number. */
  lemma HeaderRoundTrip(b: seq<byte>, pos: nat, val: u32, tt: nat)
    requires tt < 8 && At(b, pos, HeaderBytes(val, tt))
    ensures ReadHeader(b, pos) == Header(val, tt, pos + |HeaderBytes(val, tt)|)
  {
    var v: u32 := val / 16;
    var end: byte := 128 + val % 16 * 8 + tt;
    AtConcat(b, pos, Continuation(v), [end]);
    var value, last := ScanContinuation(b, pos, v);
    var p := pos + |Continuation(v)|;
    assert b[p] == b[p..p + 1][0] == end;
    NoWrap(value, last);
    assert ScanFrom(b, p, value, last) == ScanFrom(b, p + 1, v, end);
    assert ScanFrom(b, p + 1, v, end) == Scan(v, end, p + 1);
    LastByteFields(val, tt, end);
  }

  lemma {:induction false} LeadingDigit(v: nat)
    requires v != 0
    ensures Continuation(v)[0] != 0 && |Continuation(v)| > 0
  {
    if v / 128 != 0 {
      LeadingDigit(v / 128);
    }
  }

  /** A header is never mistaken for a closer. */
  lemma HeaderIsNotCloser(val: nat, tt: nat)
    requires tt < 8
    ensures HeaderBytes(val, tt)[0] != CCN_CLOSE
  {
    if val / 16 != 0 {
      LeadingDigit(val / 16);
    }
  }

  lemma {:induction false} ContinuationLength(v: nat, k: nat)
    requires v < Pow128(k)
    ensures |Continuation(v)| <= k
  {
    if v != 0 {
      ContinuationLength(v / 128, k - 1);
    }
  }

  ghost function Pow128(k: nat): (p: nat)
    ensures p > 0
  {
    if k == 0 then 1 else 128 * Pow128(k - 1)
  }

  /** Any 64-bit number fits the 17-byte scratch array, with room to spare. */
  lemma ScratchSuffices(val: nat, tt: nat)
    requires tt < 8 && val < 0x1_0000_0000_0000_0000
    ensures |HeaderBytes(val, tt)| <= 10
  {
    assert Pow128(9) == 128 * 128 * 128 * 128 * 128 * 128 * 128 * 128 * 128 by {
      assert Pow128(2) == 128 * 128;
      assert Pow128(4) == 128 * 128 * Pow128(2);
      assert Pow128(6) == 128 * 128 * Pow128(4);
      assert Pow128(8) == 128 * 128 * Pow128(6);
    }
    ContinuationLength(val / 16, 9);
  }

  /** Writes the header backwards into a scratch array and appends it. */
  method AppendBlockHeader(start: Buffer, val: nat, tt: nat) returns (n: nat)
    requires start.Valid() && tt < 8 && val < 0x1_0000_0000_0000_0000
    requires start.size + |HeaderBytes(val, tt)| <= BUFLEN
    modifies start, start.data
    ensures start.Valid() && start.Contents() == old(start.Contents()) + HeaderBytes(val, tt)
    ensures n == |HeaderBytes(val, tt)|
  {
    ScratchSuffices(val, tt);
    var buf := new byte[17](_ => 0);
    var p := buf.Length - 1;
    n := 1;
    buf[p] := 128 + val % 16 * 8 + tt;
    var v: nat := val / 16;
    while v != 0
      invariant 0 <= p < 17 && n == 17 - p && n + |Continuation(v)| <= 10
      invariant HeaderBytes(val, tt) == Continuation(v) + buf[p..]
      modifies buf
    {
      p := p - 1;
      buf[p] := v % 128;
      assert buf[p..] == [v % 128] + buf[p + 1..];
      n := n + 1;
      v := v / 128;
    }
    assert buf[p..] == HeaderBytes(val, tt);
    start.Write(buf[p..]);
  }

  /** The predicted length of a header. */
  method EstimateBlockHeader(value: nat) returns (n: nat)
    ensures forall tt :: 0 <= tt < 8 ==> n == |HeaderBytes(value, tt)|
  {
    var v: nat := value / 16;
    n := 1;
    while v > 0
      invariant n + |Continuation(v)| == 1 + |Continuation(value / 16)|
    {
      v := v / 128;
      n := n + 1;
    }
  }
}
